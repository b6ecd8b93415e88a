/** The model catalogue of `src/lib/models.ts`: which OpenRouter models are
    kept, how each is classified and stored by `syncModelsFromOpenRouter`,
    and the fallback list `ensureFallbackModels` inserts. The fetched list is
    a parameter; a JavaScript `TypeError` (reading `toLowerCase` of a missing
    name) is `None`, and the sync's `catch` ends it with what was written so far. */
module Catalogue {
  import opened Common
  import opened Text
  import opened Db

  /** One entry of the OpenRouter list: `name`, `architecture.modality` and
      `context_length` may be missing. */
  datatype RemoteModel = RemoteModel(id: string, name: Option<string>, modality: Option<string>, contextLength: Option<int>)

  const PopularProviders: seq<string> := ["openai", "anthropic", "google", "meta", "mistralai", "deepseek", "x-ai"]
  const NameKeywords: seq<string> := ["gpt", "claude", "gemini", "llama", "mixtral", "mistral"]

  /** The lowercased name contains one of the keywords. */
  predicate NameMatches(name: string)
  {
    exists i :: 0 <= i < |NameKeywords| && Contains(Lower(name), NameKeywords[i])
  }

  /** The provider part of the id, `id.split('/')[0]`, with its case kept. */
  function IdPrefix(id: string): string
  {
    BeforeFirst(id, '/')
  }

  /** The filter's test. The name is read only when the provider is not a
      popular one; reading a missing name throws. */
  function IsRelevant(m: RemoteModel): (r: Option<bool>)
    ensures r.None? <==> Lower(IdPrefix(m.id)) !in PopularProviders && m.name.None?
    ensures r == Some(true) <==>
      Lower(IdPrefix(m.id)) in PopularProviders || (m.name.Some? && NameMatches(m.name.value))
  {
    if Lower(IdPrefix(m.id)) in PopularProviders then Some(true)
    else if m.name.None? then None
    else Some(NameMatches(m.name.value))
  }

  /** `filter`: the relevant models in list order, or a throw if any test throws. */
  function Relevant(remote: seq<RemoteModel>): (r: Option<seq<RemoteModel>>)
    ensures r.None? <==> exists i :: 0 <= i < |remote| && IsRelevant(remote[i]).None?
    ensures r.Some? ==> forall m :: m in r.value ==> m in remote && IsRelevant(m) == Some(true)
    ensures r.Some? ==> forall m :: m in remote && IsRelevant(m) == Some(true) ==> m in r.value
  {
    if remote == [] then Some([])
    else
      var rest := Relevant(remote[1..]);
      assert forall i :: 0 < i < |remote| ==> remote[i] == remote[1..][i - 1];
      match IsRelevant(remote[0])
      case None => None
      case Some(keep) =>
        match rest
        case None => None
        case Some(kept) => Some(if keep then [remote[0]] + kept else kept)
  }

  /** The filter keeps list order and repeats: on a concatenation it throws
      exactly when either part does, and otherwise keeps the two parts'
      results one after the other. */
  lemma {:induction false} RelevantKeepsOrder(a: seq<RemoteModel>, b: seq<RemoteModel>)
    ensures Relevant(a + b).Some? <==> Relevant(a).Some? && Relevant(b).Some?
    ensures Relevant(a + b).Some? ==> Relevant(a + b).value == Relevant(a).value + Relevant(b).value
  {
    if a == [] {
      assert a + b == b;
    } else {
      assert a + b == [a[0]] + (a[1..] + b);
      assert a == [a[0]] + a[1..];
      RelevantKeepsOrder(a[1..], b);
      RelevantCons(a[0], a[1..] + b);
      RelevantCons(a[0], a[1..]);
      if Relevant(a + b).Some? {
        AppendAssoc(Relevant([a[0]]).value, Relevant(a[1..]).value, Relevant(b).value);
      }
    }
  }

  lemma RelevantCons(m: RemoteModel, s: seq<RemoteModel>)
    ensures Relevant([m] + s).Some? <==> Relevant([m]).Some? && Relevant(s).Some?
    ensures Relevant([m] + s).Some? ==> Relevant([m] + s).value == Relevant([m]).value + Relevant(s).value
  {
    var ms := [m] + s;
    assert ms[0] == m && ms[1..] == s;
    RelevantOne(m);
  }

  /** A single model is kept when its test holds, dropped when it fails, and
      throws when the test throws. */
  lemma RelevantOne(m: RemoteModel)
    ensures Relevant([m]) == match IsRelevant(m) case None => None case Some(keep) => Some(if keep then [m] else [])
  {
    assert [m][0] == m && [m][1..] == [] && [m] + [] == [m];
  }

  /** The category: `image` when the modality mentions images, else `code`
      when the id (as written) or the lowercased name mentions code, else
      `llm`. The name is read only when the id does not mention code. */
  function CategoryOf(m: RemoteModel): (c: Option<string>)
    ensures var image := m.modality.Some? && Contains(m.modality.value, "image");
      && (c == Some("image") <==> image)
      && (c.None? <==> !image && !Contains(m.id, "code") && m.name.None?)
      && (c == Some("code") <==>
            !image && (Contains(m.id, "code") || (m.name.Some? && Contains(Lower(m.name.value), "code"))))
      && (c.Some? ==> c.value in {"image", "code", "llm"})
  {
    if m.modality.Some? && Contains(m.modality.value, "image") then Some("image")
    else if Contains(m.id, "code") then Some("code")
    else if m.name.None? then None
    else if Contains(Lower(m.name.value), "code") then Some("code")
    else Some("llm")
  }

  /** `model.name || model.id`. */
  function StoredName(m: RemoteModel): (n: string)
    ensures Present(m.name) ==> n == m.name.value
    ensures !Present(m.name) ==> n == m.id
  {
    if Present(m.name) then m.name.value else m.id
  }

  /** `model.id.split('/')[0] || 'unknown'`: the id up to its first `/`, case
      kept, and `unknown` only when that part is empty. */
  function StoredProvider(id: string): (p: string)
    ensures p != "" && '/' !in p
    ensures id != [] && id[0] != '/' ==> p <= id && (|p| == |id| || id[|p|] == '/')
    ensures id == [] || id[0] == '/' ==> p == "unknown"
  {
    if IdPrefix(id) != "" then IdPrefix(id) else "unknown"
  }

  /** `model.context_length || null`: a missing or zero length is `NULL`. */
  function StoredContext(c: Option<int>): (r: Option<int>)
    ensures r.Some? <==> c.Some? && c.value != 0
    ensures r.Some? ==> r == c
  {
    if c.Some? && c.value != 0 then c else None
  }

  /** The `INSERT ... ON DUPLICATE KEY UPDATE` of one model: an existing row
      gets the new name, length and category and keeps its provider and
      `is_active`; a new row takes `is_active`'s column default. */
  function Upserted(models: map<string, ModelRow>, m: RemoteModel, category: string, activeByDefault: bool)
    : (r: map<string, ModelRow>)
    ensures r.Keys == models.Keys + {m.id}
    ensures forall id :: id in models && id != m.id ==> r[id] == models[id]
    ensures r[m.id].name == StoredName(m) && r[m.id].category == category
    ensures r[m.id].contextLength == StoredContext(m.contextLength)
    ensures m.id in models ==> r[m.id].provider == models[m.id].provider && r[m.id].isActive == models[m.id].isActive
    ensures m.id !in models ==> r[m.id].provider == StoredProvider(m.id) && r[m.id].isActive == activeByDefault
  {
    if m.id in models then
      models[m.id := models[m.id].(name := StoredName(m), contextLength := StoredContext(m.contextLength), category := category)]
    else
      models[m.id := ModelRow(StoredName(m), StoredProvider(m.id), category, StoredContext(m.contextLength), activeByDefault)]
  }

  /** The loop over the relevant models: each is upserted in turn, and a
      throw while classifying one ends the sync with the earlier writes kept. */
  function SyncEach(models: map<string, ModelRow>, relevant: seq<RemoteModel>, activeByDefault: bool)
    : map<string, ModelRow>
    decreases |relevant|
  {
    if relevant == [] then models
    else match CategoryOf(relevant[0])
      case None => models
      case Some(c) => SyncEach(Upserted(models, relevant[0], c, activeByDefault), relevant[1..], activeByDefault)
  }

  /** `syncModelsFromOpenRouter` on the fetched list: a throw in the filter
      writes nothing. */
  function Sync(models: map<string, ModelRow>, remote: seq<RemoteModel>, activeByDefault: bool)
    : map<string, ModelRow>
  {
    match Relevant(remote)
    case None => models
    case Some(relevant) => SyncEach(models, relevant, activeByDefault)
  }

  /** The loop never drops a model, never changes a stored provider or
      `is_active`, and adds only models of the list it walks. */
  lemma {:induction false} SyncEachKeeps(models: map<string, ModelRow>, relevant: seq<RemoteModel>, activeByDefault: bool)
    ensures var r := SyncEach(models, relevant, activeByDefault);
      && models.Keys <= r.Keys
      && (forall id :: id in models ==> r[id].provider == models[id].provider && r[id].isActive == models[id].isActive)
      && (forall id :: id in r && id !in models ==> exists i :: 0 <= i < |relevant| && relevant[i].id == id)
    decreases |relevant|
  {
    if relevant != [] {
      match CategoryOf(relevant[0])
      case None =>
      case Some(c) =>
        var next := Upserted(models, relevant[0], c, activeByDefault);
        SyncEachKeeps(next, relevant[1..], activeByDefault);
        var r := SyncEach(next, relevant[1..], activeByDefault);
        forall id | id in r && id !in models
          ensures exists i :: 0 <= i < |relevant| && relevant[i].id == id
        {
          if id !in next {
            var i :| 0 <= i < |relevant[1..]| && relevant[1..][i].id == id;
            assert relevant[i + 1].id == id;
          } else {
            assert relevant[0].id == id;
          }
        }
    }
  }

  /** The sync keeps every stored model, provider and `is_active`, and the
      models it adds are relevant ones of the fetched list. */
  lemma SyncKeeps(models: map<string, ModelRow>, remote: seq<RemoteModel>, activeByDefault: bool)
    ensures var r := Sync(models, remote, activeByDefault);
      && models.Keys <= r.Keys
      && (forall id :: id in models ==> r[id].provider == models[id].provider && r[id].isActive == models[id].isActive)
      && (forall id :: id in r && id !in models ==>
            exists m :: m in remote && m.id == id && IsRelevant(m) == Some(true))
  {
    match Relevant(remote)
    case None =>
    case Some(relevant) =>
      SyncEachKeeps(models, relevant, activeByDefault);
      var r := Sync(models, remote, activeByDefault);
      forall id | id in r && id !in models
        ensures exists m :: m in remote && m.id == id && IsRelevant(m) == Some(true)
      {
        var i :| 0 <= i < |relevant| && relevant[i].id == id;
        assert relevant[i] in relevant;
      }
  }

  /** One model without a name from an unlisted provider throws in the
      filter, and then nothing is written. */
  lemma NamelessUnlistedWritesNothing(models: map<string, ModelRow>, remote: seq<RemoteModel>, k: nat, activeByDefault: bool)
    requires k < |remote| && remote[k].name.None? && Lower(IdPrefix(remote[k].id)) !in PopularProviders
    ensures Sync(models, remote, activeByDefault) == models
  {
    assert IsRelevant(remote[k]).None?;
  }

  /** The provider part of `provider/rest` is `provider`, whatever follows. */
  lemma IdPrefixOf(provider: string, rest: string)
    requires '/' !in provider
    ensures IdPrefix(provider + "/" + rest) == provider
  {
    var id := provider + "/" + rest;
    var p := IdPrefix(id);
    assert id[|provider|] == '/';
    assert p == id[..|provider|];
  }

  /** The provider is matched lowercased but stored as written, and a
      listed provider needs no name. */
  lemma ProviderCaseKept()
    ensures IsRelevant(RemoteModel("OpenAI/o1", None, None, None)) == Some(true)
    ensures StoredProvider("OpenAI/o1") == "OpenAI"
  {
    assert "OpenAI/o1" == "OpenAI" + "/" + "o1";
    IdPrefixOf("OpenAI", "o1");
    assert Lower("OpenAI") == PopularProviders[0];
  }

  /** `syncModelsFromOpenRouter` after the fetch: filter, then upsert the
      relevant models one by one until one cannot be classified. */
  method SyncModels(db: Database, remote: seq<RemoteModel>)
    requires db.Valid()
    modifies db
    ensures db.Valid()
    ensures db.models == Sync(old(db.models), remote, db.activeByDefault)
    ensures db.votes == old(db.votes) && db.dailyStats == old(db.dailyStats) && db.comments == old(db.comments)
  {
    var filtered := Relevant(remote);
    if filtered.None? {
      return;
    }
    var relevant := filtered.value;
    var i := 0;
    while i < |relevant|
      invariant 0 <= i <= |relevant|
      invariant SyncEach(db.models, relevant[i..], db.activeByDefault) == Sync(old(db.models), remote, db.activeByDefault)
      invariant db.votes == old(db.votes) && db.dailyStats == old(db.dailyStats) && db.comments == old(db.comments)
    {
      var category := CategoryOf(relevant[i]);
      if category.None? {
        return;
      }
      assert relevant[i..][1..] == relevant[i + 1..];
      db.models := Upserted(db.models, relevant[i], category.value, db.activeByDefault);
      i := i + 1;
    }
  }

  // ---------------------------------------------------------------------------
  // The fallback list.

  /** An entry of `FALLBACK_MODELS`. */
  datatype FallbackModel = FallbackModel(id: string, name: string, provider: string, category: string, isActive: bool)

  const FallbackModels: seq<FallbackModel> := [
    FallbackModel("gpt-4o", "GPT-4o", "OpenAI", "llm", true),
    FallbackModel("gpt-4o-mini", "GPT-4o Mini", "OpenAI", "llm", true),
    FallbackModel("claude-3-5-sonnet", "Claude 3.5 Sonnet", "Anthropic", "llm", true),
    FallbackModel("claude-3-5-haiku", "Claude 3.5 Haiku", "Anthropic", "llm", true),
    FallbackModel("gemini-2.0-flash", "Gemini 2.0 Flash", "Google", "llm", true),
    FallbackModel("gemini-1.5-pro", "Gemini 1.5 Pro", "Google", "llm", true),
    FallbackModel("llama-3.1-70b", "Llama 3.1 70B", "Meta", "llm", true),
    FallbackModel("deepseek-v3", "DeepSeek V3", "DeepSeek", "llm", true)
  ]

  predicate DistinctIds(fs: seq<FallbackModel>)
  {
    forall i, j :: 0 <= i < j < |fs| ==> fs[i].id != fs[j].id
  }

  /** Eight entries with distinct ids, every one an active `llm`. */
  lemma FallbackModelsShape()
    ensures |FallbackModels| == 8
    ensures DistinctIds(FallbackModels)
    ensures forall i :: 0 <= i < |FallbackModels| ==> FallbackModels[i].category == "llm" && FallbackModels[i].isActive
  {
  }

  /** The `INSERT IGNORE` of each entry, in order: an id already stored is
      left alone; a missing one is added with id, name, provider and category,
      its length `NULL` and `is_active` its column default. */
  function WithFallbacks(models: map<string, ModelRow>, fs: seq<FallbackModel>, activeByDefault: bool)
    : map<string, ModelRow>
    decreases |fs|
  {
    if fs == [] then models
    else
      var f := fs[0];
      WithFallbacks(if f.id in models then models else models[f.id := ModelRow(f.name, f.provider, f.category, None, activeByDefault)],
                    fs[1..], activeByDefault)
  }

  /** Existing rows are untouched, every listed id ends up stored, and a row
      that was missing is the entry's. */
  lemma {:induction false} WithFallbacksAdds(models: map<string, ModelRow>, fs: seq<FallbackModel>, activeByDefault: bool)
    requires DistinctIds(fs)
    ensures var r := WithFallbacks(models, fs, activeByDefault);
      && (forall id :: id in models ==> id in r && r[id] == models[id])
      && (forall i :: 0 <= i < |fs| ==> fs[i].id in r)
      && (forall i :: 0 <= i < |fs| && fs[i].id !in models ==>
            r[fs[i].id] == ModelRow(fs[i].name, fs[i].provider, fs[i].category, None, activeByDefault))
      && (forall id :: id in r ==> id in models || exists i :: 0 <= i < |fs| && fs[i].id == id)
    decreases |fs|
  {
    if fs != [] {
      var f := fs[0];
      var next := if f.id in models then models else models[f.id := ModelRow(f.name, f.provider, f.category, None, activeByDefault)];
      assert DistinctIds(fs[1..]);
      WithFallbacksAdds(next, fs[1..], activeByDefault);
      var r := WithFallbacks(models, fs, activeByDefault);
      assert r == WithFallbacks(next, fs[1..], activeByDefault);
      forall i | 0 <= i < |fs|
        ensures fs[i].id in r
      {
        if i > 0 {
          assert fs[i] == fs[1..][i - 1];
        } else {
          assert f.id in next;
        }
      }
      forall i | 0 <= i < |fs| && fs[i].id !in models
        ensures r[fs[i].id] == ModelRow(fs[i].name, fs[i].provider, fs[i].category, None, activeByDefault)
      {
        if i > 0 {
          assert fs[i] == fs[1..][i - 1];
          assert fs[i].id != f.id;
          assert fs[i].id !in next;
        } else {
          assert f.id in next && next[f.id] == ModelRow(f.name, f.provider, f.category, None, activeByDefault);
        }
      }
      forall id | id in r
        ensures id in models || exists i :: 0 <= i < |fs| && fs[i].id == id
      {
        if id !in next {
          var j :| 0 <= j < |fs[1..]| && fs[1..][j].id == id;
          assert fs[j + 1].id == id;
        } else if id !in models {
          assert fs[0].id == id;
        }
      }
    }
  }

  /** `ensureFallbackModels`: one `INSERT IGNORE` per entry of the list. */
  method EnsureFallbackModels(db: Database)
    requires db.Valid()
    modifies db
    ensures db.Valid()
    ensures db.models == WithFallbacks(old(db.models), FallbackModels, db.activeByDefault)
    ensures db.votes == old(db.votes) && db.dailyStats == old(db.dailyStats) && db.comments == old(db.comments)
  {
    InsertIgnoreEach(db, FallbackModels);
  }

  /** The loop of `ensureFallbackModels` over a list of entries: an entry
      whose id is already stored is skipped. */
  method InsertIgnoreEach(db: Database, fs: seq<FallbackModel>)
    requires db.Valid()
    modifies db
    ensures db.Valid()
    ensures db.models == WithFallbacks(old(db.models), fs, db.activeByDefault)
    ensures db.votes == old(db.votes) && db.dailyStats == old(db.dailyStats) && db.comments == old(db.comments)
  {
    var i := 0;
    while i < |fs|
      invariant 0 <= i <= |fs|
      invariant WithFallbacks(db.models, fs[i..], db.activeByDefault)
        == WithFallbacks(old(db.models), fs, db.activeByDefault)
      invariant db.votes == old(db.votes) && db.dailyStats == old(db.dailyStats) && db.comments == old(db.comments)
    {
      var f := fs[i];
      assert fs[i..][1..] == fs[i + 1..];
      if f.id !in db.models {
        db.models := db.models[f.id := ModelRow(f.name, f.provider, f.category, None, db.activeByDefault)];
      }
      i := i + 1;
    }
  }

  /** After the fallbacks are ensured, each of the eight ids is stored, and
      nothing stored before changed. */
  lemma FallbacksPresent(models: map<string, ModelRow>, activeByDefault: bool)
    ensures var r := WithFallbacks(models, FallbackModels, activeByDefault);
      && (forall i :: 0 <= i < |FallbackModels| ==> FallbackModels[i].id in r)
      && (forall id :: id in models ==> id in r && r[id] == models[id])
  {
    FallbackModelsShape();
    WithFallbacksAdds(models, FallbackModels, activeByDefault);
  }
}
