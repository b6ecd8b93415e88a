/** `POST /api/comments` of `src/app/api/comments/route.ts`: consume a comment
    slot first, then validate the body with the zod schema, check the model
    exists and append the comment. The body is the parsed JSON, `None` when
    it is not JSON. */
module CommentsRoute {
  import opened Common
  import opened Text
  import opened ApiResponse
  import opened Fingerprint
  import opened RateLimit
  import opened Db

  const RateLimitMessage := "Comment limit reached (max 3 per day)"
  const InvalidMessage := "Invalid input"
  const NotFoundMessage := "Model not found"
  const FailureMessage := "Failed to save comment"
  const SuccessMessage := "Comment posted successfully"

  /** `z.string().min(lo).max(hi)`: a string of `lo` to `hi` characters. */
  predicate StringField(body: map<string, Json>, name: string, lo: nat, hi: nat)
  {
    name in body && body[name].JStr? && lo <= |body[name].s| <= hi
  }

  /** A zod issue, reduced to the path of the offending value. */
  function Issue(path: seq<string>): Json
  {
    JObj(map["path" := JArr(seq(|path|, i requires 0 <= i < |path| => JStr(path[i])))])
  }

  /** Issues on different paths are different values. */
  lemma IssuesDistinct()
    ensures Issue([]) != Issue(["model_id"]) && Issue([]) != Issue(["comment_text"])
    ensures Issue(["model_id"]) != Issue(["comment_text"])
  {
    assert Issue([]).fields["path"].items == [];
    assert Issue(["model_id"]).fields["path"].items == [JStr("model_id")];
    assert Issue(["comment_text"]).fields["path"].items == [JStr("comment_text")];
  }

  /** The issues `safeParse` reports: the root when the body is not an
      object, else each failing field. */
  function Issues(body: Json): (issues: seq<Json>)
    ensures !body.JObj? ==> issues == [Issue([])]
    ensures body.JObj? ==> |issues| <= 2 && Issue([]) !in issues
    ensures body.JObj? ==> (Issue(["model_id"]) in issues <==> !StringField(body.fields, "model_id", 1, 100))
    ensures body.JObj? ==> (Issue(["comment_text"]) in issues <==> !StringField(body.fields, "comment_text", 1, 1000))
    // the `model_id` issue, when there is one, is reported first
    ensures Issue(["model_id"]) in issues ==> issues[0] == Issue(["model_id"])
  {
    IssuesDistinct();
    if !body.JObj? then [Issue([])]
    else
      (if StringField(body.fields, "model_id", 1, 100) then [] else [Issue(["model_id"])])
      + (if StringField(body.fields, "comment_text", 1, 1000) then [] else [Issue(["comment_text"])])
  }

  datatype ValidComment = ValidComment(modelId: string, text: string)

  /** `commentSchema.safeParse`: both fields are strings within their bounds,
      the bounds checked on the text as sent; the text is trimmed after. Keys
      other than the two are dropped. */
  function Validate(body: Json): (r: Option<ValidComment>)
    ensures r.Some? <==> body.JObj? && StringField(body.fields, "model_id", 1, 100)
                         && StringField(body.fields, "comment_text", 1, 1000)
    ensures r.Some? ==>
      && 1 <= |r.value.modelId| <= 100
      && r.value.modelId == body.fields["model_id"].s
      && r.value.text == Trim(body.fields["comment_text"].s)
      && |r.value.text| <= 1000
  {
    if body.JObj? && StringField(body.fields, "model_id", 1, 100) && StringField(body.fields, "comment_text", 1, 1000)
    then Some(ValidComment(body.fields["model_id"].s, Trim(body.fields["comment_text"].s)))
    else None
  }

  /** The body is accepted exactly when zod reports no issue. */
  lemma ValidIffNoIssues(body: Json)
    ensures Validate(body).Some? <==> Issues(body) == []
  {
    if body.JObj? && !StringField(body.fields, "model_id", 1, 100) {
      assert Issues(body)[0] == Issue(["model_id"]);
    }
  }

  /** The route. `sha256` stands for the hash of the fingerprint and `now` for `NOW()`. */
  method Post(ledger: Ledger, db: Database, headers: Headers, sha256: string -> HexDigest,
              body: Option<Json>, now: int)
    returns (resp: Response)
    requires ledger.Valid() && db.Valid()
    requires ledger.clock <= now
    modifies ledger, db
    ensures ledger.Valid() && db.Valid()
    ensures db.models == old(db.models) && db.votes == old(db.votes) && db.dailyStats == old(db.dailyStats)
    // the slot is taken first, whatever the body holds
    ensures var fp := GenerateFingerprint(headers, sha256);
      ledger.rows == Check(old(ledger.rows), fp, Comment, now, ledger.windowMs).rows
    ensures var fp := GenerateFingerprint(headers, sha256);
      var o := Check(old(ledger.rows), fp, Comment, now, ledger.windowMs);
      && (!o.decision.allowed ==> resp == ApiResponse.RateLimit(Some(RateLimitMessage)) && db.comments == old(db.comments))
      && (o.decision.allowed && body.None? ==>
            resp == ServerError(Some(FailureMessage), None) && db.comments == old(db.comments))
      && (o.decision.allowed && body.Some? && Validate(body.value).None? ==>
            resp == ValidationError(InvalidMessage, Some(JArr(Issues(body.value))))
            && db.comments == old(db.comments))
      && (o.decision.allowed && body.Some? && Validate(body.value).Some?
          && Validate(body.value).value.modelId !in old(db.models) ==>
            resp == NotFound(Some(NotFoundMessage)) && db.comments == old(db.comments))
      && (o.decision.allowed && body.Some? && Validate(body.value).Some?
          && Validate(body.value).value.modelId in old(db.models) ==>
            var c := Validate(body.value).value;
            && db.comments == old(db.comments) + [CommentRow(c.modelId, fp, c.text, true)]
            && resp == ApiSuccess(Some(JObj(map["id" := JStr("new")])), Some(SuccessMessage), Some(201)))
  {
    var fp := GenerateFingerprint(headers, sha256);
    var allowed, _ := ledger.CheckRateLimit(fp, Comment, now);
    if !allowed {
      return ApiResponse.RateLimit(Some(RateLimitMessage));
    }
    if body.None? {
      return ServerError(Some(FailureMessage), None);
    }
    var parsed := Validate(body.value);
    if parsed.None? {
      return ValidationError(InvalidMessage, Some(JArr(Issues(body.value))));
    }
    var c := parsed.value;
    if c.modelId !in db.models {
      return NotFound(Some(NotFoundMessage));
    }
    db.comments := db.comments + [CommentRow(c.modelId, fp, c.text, true)];
    return ApiSuccess(Some(JObj(map["id" := JStr("new")])), Some(SuccessMessage), Some(201));
  }

  /** A refused body still reports its issues: the `details` of the 400 are present. */
  lemma InvalidBodyHasDetails(body: Json)
    requires Validate(body).None?
    ensures "details" in ValidationError(InvalidMessage, Some(JArr(Issues(body)))).body.fields
  {
  }

  /** The length bounds are checked before the trim, so a text of blanks is
      accepted and stored empty. */
  lemma BlankCommentStoredEmpty()
    ensures Validate(JObj(map["model_id" := JStr("m"), "comment_text" := JStr("   ")]))
      == Some(ValidComment("m", ""))
  {
    var body := JObj(map["model_id" := JStr("m"), "comment_text" := JStr("   ")]);
    assert StringField(body.fields, "model_id", 1, 100);
    assert StringField(body.fields, "comment_text", 1, 1000);
    TrimBlank("   ");
  }

  /** An over-long text is refused even when trimming would bring it in bounds. */
  lemma LengthCheckedBeforeTrim(text: string)
    requires |text| == 1000 && text[0] != ' '
    ensures Validate(JObj(map["model_id" := JStr("m"), "comment_text" := JStr(text + " ")])).None?
  {
  }

}
