/** The selection of the compare page, `src/app/compare/page.tsx`: up to four
    distinct models, mirrored in the address bar as `/compare?models=a,b`,
    and restored from that parameter. The fetched catalogue is a parameter;
    the pushed address is a field. */
module ComparePage {
  import opened Common
  import opened Text

  /** The fields of a catalogue model the selection uses. */
  datatype Model = Model(id: string, name: string, provider: string)

  const MaxSelected := 4

  /** `selected.find(m => m.id === id)` finds something. */
  predicate IdSelected(s: seq<Model>, id: string)
  {
    exists i :: 0 <= i < |s| && s[i].id == id
  }

  /** No two models share an id. */
  predicate DistinctIds(s: seq<Model>)
  {
    forall i, j :: 0 <= i < j < |s| ==> s[i].id != s[j].id
  }

  /** `selected.map(m => m.id)`. */
  function Ids(s: seq<Model>): (ids: seq<string>)
    ensures |ids| == |s|
    ensures forall i :: 0 <= i < |s| ==> ids[i] == s[i].id
  {
    seq(|s|, i requires 0 <= i < |s| => s[i].id)
  }

  /** The address pushed after a change: the ids joined by commas, or the
      bare page when nothing is selected. */
  function UrlFor(s: seq<Model>): string
  {
    if s == [] then "/compare" else "/compare?models=" + Join(Ids(s), ',')
  }

  /** `selected.filter(m => m.id !== id)`. */
  function WithoutId(s: seq<Model>, id: string): (r: seq<Model>)
    ensures |r| <= |s|
    ensures forall m :: m in r <==> m in s && m.id != id
  {
    if s == [] then []
    else
      var rest := WithoutId(s[1..], id);
      assert forall m :: m in s <==> m == s[0] || m in s[1..];
      if s[0].id != id then [s[0]] + rest else rest
  }

  /** Removing keeps the others in their order: it distributes over
      concatenation, and leaves a list without that id as it is. */
  lemma {:induction false} WithoutIdKeepsOrder(a: seq<Model>, b: seq<Model>, id: string)
    ensures WithoutId(a + b, id) == WithoutId(a, id) + WithoutId(b, id)
  {
    if a == [] {
      assert a + b == b;
    } else {
      assert (a + b)[1..] == a[1..] + b;
      WithoutIdKeepsOrder(a[1..], b, id);
    }
  }

  lemma {:induction false} WithoutAbsentId(s: seq<Model>, id: string)
    requires !IdSelected(s, id)
    ensures WithoutId(s, id) == s
  {
    if s != [] {
      assert !IdSelected(s[1..], id) by {
        forall i | 0 <= i < |s[1..]| ensures s[1..][i].id != id {
          assert s[1..][i] == s[i + 1];
        }
      }
      WithoutAbsentId(s[1..], id);
    }
  }

  /** A model whose id no model of a distinct list has can head it. */
  lemma DistinctCons(h: Model, t: seq<Model>)
    requires DistinctIds(t) && !IdSelected(t, h.id)
    ensures DistinctIds([h] + t)
  {
    var r := [h] + t;
    forall i, j | 0 <= i < j < |r|
      ensures r[i].id != r[j].id
    {
      assert r[j] == t[j - 1];
      if i > 0 {
        assert r[i] == t[i - 1];
      }
    }
  }

  /** After removal the id is gone. */
  lemma IdRemoved(s: seq<Model>, id: string)
    ensures !IdSelected(WithoutId(s, id), id)
  {
    var r := WithoutId(s, id);
    forall i | 0 <= i < |r|
      ensures r[i].id != id
    {
      assert r[i] in r;
    }
  }

  /** Removing never exceeds the cap nor creates a repeat. */
  lemma {:induction false} WithoutIdKeepsDistinct(s: seq<Model>, id: string)
    requires DistinctIds(s)
    ensures DistinctIds(WithoutId(s, id))
  {
    if s != [] {
      assert DistinctIds(s[1..]);
      WithoutIdKeepsDistinct(s[1..], id);
      var rest := WithoutId(s[1..], id);
      if s[0].id != id {
        assert !IdSelected(rest, s[0].id) by {
          forall j | 0 <= j < |rest|
            ensures rest[j].id != s[0].id
          {
            assert rest[j] in s[1..];
            var k :| 0 <= k < |s[1..]| && s[1..][k] == rest[j];
            assert s[k + 1] == rest[j];
          }
        }
        DistinctCons(s[0], rest);
      }
    }
  }

  /** `searchParams.get('models')?.split(',') || []`. */
  function IdsFromParam(param: Option<string>): (ids: seq<string>)
    ensures param.None? ==> ids == []
    ensures param.Some? ==> |ids| >= 1
  {
    if param.None? then [] else Split(param.value, ',')
  }

  /** An id that reads back unchanged from the pushed address: no comma,
      which would split it, and none of the characters `searchParams.get`
      decodes or stops at ('+', '%', '&', '#'). */
  predicate PlainId(id: string)
  {
    ',' !in id && '+' !in id && '%' !in id && '&' !in id && '#' !in id
  }

  /** The address of a selection gives its ids back, when every id is plain. */
  lemma UrlRoundTrip(s: seq<Model>)
    requires s != []
    requires forall i :: 0 <= i < |s| ==> PlainId(s[i].id)
    ensures UrlFor(s) == "/compare?models=" + Join(Ids(s), ',')
    ensures IdsFromParam(Some(Join(Ids(s), ','))) == Ids(s)
  {
    SplitJoin(Ids(s), ',');
  }

  /** An empty parameter still yields one (empty) id. */
  lemma EmptyParamOneId()
    ensures IdsFromParam(Some("")) == [""]
  {
  }

  /** `data.models.filter(m => ids.includes(m.id))`: the listed models in
      catalogue order, with no cap. */
  function SelectFrom(catalogue: seq<Model>, ids: seq<string>): (r: seq<Model>)
    ensures |r| <= |catalogue|
    ensures forall m :: m in r <==> m in catalogue && m.id in ids
  {
    if catalogue == [] then []
    else
      var rest := SelectFrom(catalogue[1..], ids);
      assert forall m :: m in catalogue <==> m == catalogue[0] || m in catalogue[1..];
      if catalogue[0].id in ids then [catalogue[0]] + rest else rest
  }

  /** The selection is in catalogue order, repeats included: it distributes
      over concatenation. */
  lemma {:induction false} SelectFromKeepsOrder(a: seq<Model>, b: seq<Model>, ids: seq<string>)
    ensures SelectFrom(a + b, ids) == SelectFrom(a, ids) + SelectFrom(b, ids)
  {
    if a == [] {
      assert a + b == b;
    } else {
      assert a + b == [a[0]] + (a[1..] + b);
      assert a == [a[0]] + a[1..];
      SelectFromKeepsOrder(a[1..], b, ids);
      SelectFromCons(a[0], a[1..] + b, ids);
      SelectFromCons(a[0], a[1..], ids);
      AppendAssoc(SelectFrom([a[0]], ids), SelectFrom(a[1..], ids), SelectFrom(b, ids));
    }
  }

  lemma SelectFromCons(x: Model, s: seq<Model>, ids: seq<string>)
    ensures SelectFrom([x] + s, ids) == SelectFrom([x], ids) + SelectFrom(s, ids)
  {
    var xs := [x] + s;
    assert xs[0] == x && xs[1..] == s;
    SelectFromOne(x, ids);
  }

  /** A single model is selected exactly when its id is listed. */
  lemma SelectFromOne(x: Model, ids: seq<string>)
    ensures SelectFrom([x], ids) == if x.id in ids then [x] else []
  {
    assert [x][1..] == [];
  }

  /** Reloading the address restores the same models when they come from a
      catalogue with distinct ids, though in catalogue order. */
  lemma ReloadRestoresModels(catalogue: seq<Model>, s: seq<Model>)
    requires DistinctIds(catalogue)
    requires forall m :: m in s ==> m in catalogue
    ensures forall m :: m in SelectFrom(catalogue, Ids(s)) <==> m in s
  {
    forall m | m in SelectFrom(catalogue, Ids(s))
      ensures m in s
    {
      var k :| 0 <= k < |s| && Ids(s)[k] == m.id;
      var a :| 0 <= a < |catalogue| && catalogue[a] == m;
      var b :| 0 <= b < |catalogue| && catalogue[b] == s[k];
      assert catalogue[a].id == catalogue[b].id;
    }
    forall m | m in s
      ensures m in SelectFrom(catalogue, Ids(s))
    {
      var k :| 0 <= k < |s| && s[k] == m;
      assert Ids(s)[k] == m.id;
    }
  }

  /** The order is the catalogue's, not the selection's. */
  lemma ReloadReorders(a: Model, b: Model)
    requires a.id != b.id
    ensures SelectFrom([a, b], Ids([b, a])) == [a, b]
  {
    assert Ids([b, a]) == [b.id, a.id];
    assert [a, b][1..] == [b];
  }

  /** The picker's search: the name or the provider contains the query,
      ignoring case. */
  function PickerModels(models: seq<Model>, query: string): (r: seq<Model>)
    ensures forall m :: m in r <==>
      m in models && (Contains(Lower(m.name), Lower(query)) || Contains(Lower(m.provider), Lower(query)))
  {
    if models == [] then []
    else
      var rest := PickerModels(models[1..], query);
      assert forall m :: m in models <==> m == models[0] || m in models[1..];
      if Contains(Lower(models[0].name), Lower(query)) || Contains(Lower(models[0].provider), Lower(query))
      then [models[0]] + rest else rest
  }

  /** The picker lists the matches in the order it is given them: the search
      distributes over concatenation. */
  lemma {:induction false} PickerKeepsOrder(a: seq<Model>, b: seq<Model>, query: string)
    ensures PickerModels(a + b, query) == PickerModels(a, query) + PickerModels(b, query)
  {
    if a == [] {
      assert a + b == b;
    } else {
      assert a + b == [a[0]] + (a[1..] + b);
      assert a == [a[0]] + a[1..];
      PickerKeepsOrder(a[1..], b, query);
      PickerCons(a[0], a[1..] + b, query);
      PickerCons(a[0], a[1..], query);
      AppendAssoc(PickerModels([a[0]], query), PickerModels(a[1..], query), PickerModels(b, query));
    }
  }

  lemma PickerCons(x: Model, s: seq<Model>, query: string)
    ensures PickerModels([x] + s, query) == PickerModels([x], query) + PickerModels(s, query)
  {
    var xs := [x] + s;
    assert xs[0] == x && xs[1..] == s;
    PickerOne(x, query);
  }

  /** A single model is listed exactly when its name or provider contains the query. */
  lemma PickerOne(x: Model, query: string)
    ensures PickerModels([x], query) == if Contains(Lower(x.name), Lower(query)) || Contains(Lower(x.provider), Lower(query)) then [x] else []
  {
    assert [x][1..] == [];
  }

  /** The page's state. */
  class CompareState {
    var selected: seq<Model>
    var showPicker: bool
    var searchQuery: string
    var url: string

    /** At most four models, no two with the same id. */
    ghost predicate Valid()
      reads this
    {
      |selected| <= MaxSelected && DistinctIds(selected)
    }

    constructor (url: string)
      ensures Valid()
      ensures selected == [] && !showPicker && searchQuery == "" && this.url == url
    {
      selected := [];
      showPicker := false;
      searchQuery := "";
      this.url := url;
    }

    /** `addModel`: appends when fewer than four are selected and the id is
        new, then pushes the address; the picker closes and the search clears
        either way. */
    method AddModel(m: Model)
      modifies this
      ensures |old(selected)| < MaxSelected && !IdSelected(old(selected), m.id) ==>
        selected == old(selected) + [m] && url == UrlFor(selected)
      ensures !(|old(selected)| < MaxSelected && !IdSelected(old(selected), m.id)) ==>
        selected == old(selected) && url == old(url)
      ensures !showPicker && searchQuery == ""
      ensures old(Valid()) ==> Valid()
    {
      if |selected| < MaxSelected && !IdSelected(selected, m.id) {
        selected := selected + [m];
        url := UrlFor(selected);
      }
      showPicker := false;
      searchQuery := "";
    }

    /** `removeModel`: drops the models with that id and pushes the address. */
    method RemoveModel(id: string)
      modifies this
      ensures selected == WithoutId(old(selected), id)
      ensures !IdSelected(selected, id)
      ensures url == UrlFor(selected)
      ensures showPicker == old(showPicker) && searchQuery == old(searchQuery)
      ensures old(Valid()) ==> Valid()
    {
      if Valid() {
        WithoutIdKeepsDistinct(selected, id);
      }
      IdRemoved(selected, id);
      selected := WithoutId(selected, id);
      url := UrlFor(selected);
    }

    /** `loadModelsFromIds`: replaces the selection with the listed models of
        the catalogue; the address is not pushed. */
    method LoadModelsFromIds(catalogue: seq<Model>, ids: seq<string>)
      modifies this
      ensures selected == SelectFrom(catalogue, ids)
      ensures url == old(url) && showPicker == old(showPicker) && searchQuery == old(searchQuery)
    {
      selected := SelectFrom(catalogue, ids);
    }
  }

  /** Loading ignores the cap: five listed models are all selected. */
  lemma LoadIgnoresCap(c: seq<Model>)
    requires |c| == 5
    ensures SelectFrom(c, Ids(c)) == c
  {
    SelectAll(c, Ids(c));
  }

  lemma {:induction false} SelectAll(c: seq<Model>, ids: seq<string>)
    requires forall i :: 0 <= i < |c| ==> c[i].id in ids
    ensures SelectFrom(c, ids) == c
  {
    if c != [] {
      SelectAll(c[1..], ids);
    }
  }
}
