/** The content registrar (`/api/content`): GET lists the catalog, POST
    validates a new record, rejects a duplicate id, appends and persists. */
module ContentRoute {
  import opened Catalog
  import opened JsonStore

  /** The fields of the JSON request body, each absent or a string. */
  datatype Body = Body(
    contentId: Option<string>,
    title: Option<string>,
    unlockableUrl: Option<string>,
    priceUSDC: Option<string>)

  datatype Response =
    | Listed(items: Catalog)                                // 200 { content: items }
    | Created(message: string, content: ContentRecord)      // 200 { message, content }
    | Failed(status: nat, error: string)                    // { error } with status

  /** A POST's response, the catalog file afterwards, and its effects. */
  datatype PostOutcome = PostOutcome(response: Response, paywall: FileState<Catalog>, effects: seq<Effect>)

  const CREATE_FAILED := "Failed to create content"
  const MISSING_FIELDS := "Missing required fields"
  const DUPLICATE_ID := "Content ID already exists"
  const CREATED := "Content created successfully"

  /** POST's guard: all four fields present with a non-empty value. */
  predicate HasRequiredFields(b: Body)
    ensures !HasRequiredFields(b) <==>
      b.contentId in {None, Some("")} || b.title in {None, Some("")} ||
      b.unlockableUrl in {None, Some("")} || b.priceUSDC in {None, Some("")}
  {
    Truthy(b.contentId) && Truthy(b.title) && Truthy(b.unlockableUrl) && Truthy(b.priceUSDC)
  }

  /** What POST does, given the parsed body (None when `req.json()` throws
      or the body is null), the catalog file and the current time. */
  function CreateContent(body: Option<Body>, paywall: FileState<Catalog>, now: string): (r: PostOutcome)
    ensures body.None? ==> r == PostOutcome(Failed(500, CREATE_FAILED), paywall, [])
    ensures body.Some? && !HasRequiredFields(body.value) ==>
      r == PostOutcome(Failed(400, MISSING_FIELDS), paywall, [])
    ensures body.Some? && HasRequiredFields(body.value) && Find(CatalogOf(paywall), body.value.contentId.value).Some? ==>
      r == PostOutcome(Failed(409, DUPLICATE_ID), paywall, [ReadPaywall])
    ensures r.response.Created? <==>
      body.Some? && HasRequiredFields(body.value) && Find(CatalogOf(paywall), body.value.contentId.value).None?
    ensures !r.response.Created? ==> r.response.Failed? && r.paywall == paywall
    ensures r.response.Created? ==>
      && r.response.message == CREATED
      && r.response.content == ContentRecord(body.value.contentId.value, body.value.title.value,
                                             body.value.unlockableUrl.value, body.value.priceUSDC.value, Some(now))
      && r.paywall == Stored(CatalogOf(paywall) + [r.response.content])
      && r.effects == [ReadPaywall, WritePaywall]
  {
    if body.None? then PostOutcome(Failed(500, CREATE_FAILED), paywall, [])
    else
      var b := body.value;
      if !HasRequiredFields(b) then PostOutcome(Failed(400, MISSING_FIELDS), paywall, [])
      else
        var catalog := CatalogOf(paywall);
        if Find(catalog, b.contentId.value).Some? then
          PostOutcome(Failed(409, DUPLICATE_ID), Ensured(paywall, []), [ReadPaywall])
        else
          var rec := ContentRecord(b.contentId.value, b.title.value, b.unlockableUrl.value, b.priceUSDC.value, Some(now));
          PostOutcome(Created(CREATED, rec), Stored(catalog + [rec]), [ReadPaywall, WritePaywall])
  }

  /** Whatever the outcome, a catalog with distinct ids keeps distinct ids. */
  lemma CreatePreservesDistinct(body: Option<Body>, paywall: FileState<Catalog>, now: string)
    requires DistinctIds(CatalogOf(paywall))
    ensures DistinctIds(CatalogOf(CreateContent(body, paywall, now).paywall))
  {
  }

  /** After a successful POST the new id finds exactly the new record, and
      every other id finds what it found before. */
  lemma CreateThenFind(body: Option<Body>, paywall: FileState<Catalog>, now: string, id: string)
    requires CreateContent(body, paywall, now).response.Created?
    ensures var r := CreateContent(body, paywall, now);
      Find(CatalogOf(r.paywall), id) ==
        if id == r.response.content.contentId then Some(r.response.content) else Find(CatalogOf(paywall), id)
  {
    var r := CreateContent(body, paywall, now);
    FindAppend(CatalogOf(paywall), r.response.content, id);
  }

  /** GET: the catalog as read, unmodified; a missing file is created as `[]`. */
  method Get(paywall: JsonFile<Catalog>) returns (resp: Response)
    modifies paywall
    ensures resp == Listed(CatalogOf(old(paywall.state)))
    ensures paywall.state == Ensured(old(paywall.state), [])
  {
    var paywallData := paywall.ReadJsonFile([]);
    resp := Listed(paywallData);
  }

  /** POST, step by step as the route does it. */
  method Post(paywall: JsonFile<Catalog>, body: Option<Body>, now: string) returns (resp: Response, effects: seq<Effect>)
    modifies paywall
    ensures PostOutcome(resp, paywall.state, effects) == CreateContent(body, old(paywall.state), now)
  {
    effects := [];
    if body.None? {
      resp := Failed(500, CREATE_FAILED);
      return;
    }
    var b := body.value;
    if !Truthy(b.contentId) || !Truthy(b.title) || !Truthy(b.unlockableUrl) || !Truthy(b.priceUSDC) {
      resp := Failed(400, MISSING_FIELDS);
      return;
    }
    var paywallData := paywall.ReadJsonFile([]);
    effects := effects + [ReadPaywall];
    var existingContent := Find(paywallData, b.contentId.value);
    if existingContent.Some? {
      resp := Failed(409, DUPLICATE_ID);
      return;
    }
    var newContent := ContentRecord(b.contentId.value, b.title.value, b.unlockableUrl.value, b.priceUSDC.value, Some(now));
    paywallData := paywallData + [newContent];
    paywall.WriteFile(paywallData);
    effects := effects + [WritePaywall];
    resp := Created(CREATED, newContent);
  }
}
