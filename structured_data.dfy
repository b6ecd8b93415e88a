/** The schema.org JSON-LD builders of `src/components/StructuredData.tsx`, as
    the JSON that `JSON.stringify` writes: a field whose value is `undefined`
    is absent. `toFixed(2)` is a parameter. */
module StructuredData {
  import opened Common

  const SchemaContext := "https://schema.org"

  /** The object `StructuredData` serialises: the context and the type, then
      the data spread over them. */
  function WithContext(kind: string, data: map<string, Json>): Json
  {
    JObj(map["@context" := JStr(SchemaContext), "@type" := JStr(kind)] + data)
  }

  /** The data is spread last: its fields are kept as given, and override the
      context and the type when it has them. */
  lemma DataOverrides(kind: string, data: map<string, Json>)
    ensures WithContext(kind, data).JObj?
    ensures WithContext(kind, data).fields.Keys == {"@context", "@type"} + data.Keys
    ensures forall k :: k in data ==> WithContext(kind, data).fields[k] == data[k]
    ensures "@context" !in data ==> WithContext(kind, data).fields["@context"] == JStr(SchemaContext)
    ensures "@type" !in data ==> WithContext(kind, data).fields["@type"] == JStr(kind)
  {
  }

  /** A data object with its own `@type` replaces the one given. */
  lemma TypeOverridden()
    ensures WithContext("WebSite", map["@type" := JStr("Thing")]).fields["@type"] == JStr("Thing")
  {
  }

  /** The fields of a model the builder reads. */
  datatype ModelInfo = ModelInfo(name: string, provider: string, votesToday: int, performance: real, intelligence: real)

  /** The `AggregateRating` of a model with votes today. */
  function AggregateRating(m: ModelInfo, toFixed2: real -> string): Json
  {
    JObj(map[
      "@type" := JStr("AggregateRating"),
      "ratingValue" := JStr(toFixed2((m.performance + m.intelligence) / 2.0)),
      "bestRating" := JStr("5"),
      "worstRating" := JStr("1"),
      "ratingCount" := JNum(m.votesToday as real)])
  }

  /** `generateModelStructuredData`. */
  function ModelStructuredData(m: ModelInfo, toFixed2: real -> string): Json
  {
    var base := map[
      "@context" := JStr(SchemaContext),
      "@type" := JStr("SoftwareApplication"),
      "name" := JStr(m.name),
      "applicationCategory" := JStr("AI Language Model"),
      "operatingSystem" := JStr("Web"),
      "offers" := JObj(map["@type" := JStr("Offer"), "price" := JStr("0"), "priceCurrency" := JStr("USD")]),
      "publisher" := JObj(map["@type" := JStr("Organization"), "name" := JStr(m.provider)])];
    if m.votesToday > 0 then JObj(base["aggregateRating" := AggregateRating(m, toFixed2)]) else JObj(base)
  }

  /** The rating is there iff the model has votes today; then it counts them,
      on a scale from 1 to 5, rating the mean of performance and intelligence. */
  lemma RatingOnlyWithVotes(m: ModelInfo, toFixed2: real -> string)
    ensures var d := ModelStructuredData(m, toFixed2);
      && d.JObj?
      && ("aggregateRating" in d.fields <==> m.votesToday > 0)
      && ("aggregateRating" in d.fields ==>
            var r := d.fields["aggregateRating"];
            && r.JObj?
            && r.fields["ratingCount"] == JNum(m.votesToday as real)
            && r.fields["bestRating"] == JStr("5")
            && r.fields["worstRating"] == JStr("1")
            && r.fields["ratingValue"] == JStr(toFixed2((m.performance + m.intelligence) / 2.0)))
  {
  }

  /** The publisher is the provider, and the offer is free, in US dollars. */
  lemma PublisherAndOffer(m: ModelInfo, toFixed2: real -> string)
    ensures var d := ModelStructuredData(m, toFixed2);
      && d.JObj?
      && d.fields["@type"] == JStr("SoftwareApplication")
      && d.fields["name"] == JStr(m.name)
      && d.fields["publisher"] == JObj(map["@type" := JStr("Organization"), "name" := JStr(m.provider)])
      && d.fields["offers"].fields["price"] == JStr("0")
      && d.fields["offers"].fields["priceCurrency"] == JStr("USD")
  {
  }

  /** A breadcrumb as given: a name and an address. */
  datatype Crumb = Crumb(name: string, url: string)

  /** One `ListItem` of the trail. */
  function ListItem(c: Crumb, position: nat): Json
  {
    JObj(map["@type" := JStr("ListItem"), "position" := JNum(position as real), "name" := JStr(c.name), "item" := JStr(c.url)])
  }

  /** `generateBreadcrumbs`. */
  function Breadcrumbs(items: seq<Crumb>): Json
  {
    JObj(map[
      "@context" := JStr(SchemaContext),
      "@type" := JStr("BreadcrumbList"),
      "itemListElement" := JArr(seq(|items|, i requires 0 <= i < |items| => ListItem(items[i], i + 1)))])
  }

  /** The trail has one item per crumb, in order, numbered from 1, each with
      the crumb's name and address. */
  lemma BreadcrumbPositions(items: seq<Crumb>)
    ensures var list := Breadcrumbs(items).fields["itemListElement"];
      && list.JArr?
      && |list.items| == |items|
      && forall i :: 0 <= i < |items| ==>
           && list.items[i].JObj?
           && list.items[i].fields["position"] == JNum((i + 1) as real)
           && list.items[i].fields["name"] == JStr(items[i].name)
           && list.items[i].fields["item"] == JStr(items[i].url)
  {
  }
}
