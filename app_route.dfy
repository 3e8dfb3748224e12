/** The unlock action (`/api/app`): GET describes the action to a Sherry
    client; POST turns (creatorHandle, contentId) into an unsigned, serialised
    `payAndLogAccess` transaction on Avalanche Fuji. The chain client and the
    viem encoders are oracles, bundled in `Chain`. */
module AppRoute {
  import opened Catalog
  import opened JsonStore

  const PAYER_ROUTER_ADDRESS := "0x994519B71387380F30Be925a75a5593cffacd401"
  const USDC_ADDRESS := "0x5425890298aed601595a70AB815c96711a31Bc65"
  /** `avalancheFuji.id` and `avalancheFuji.name` from viem's chain table. */
  const FUJI_CHAIN_ID: nat := 43113
  const FUJI_CHAIN_NAME := "Avalanche Fuji"

  const CREATOR_HANDLE := "creatorHandle"
  const CONTENT_ID := "contentId"

  const MISSING_PARAMS := "Missing creatorHandle or contentId"
  const CONTENT_NOT_FOUND := "Content not found"
  const PAYEE_NOT_FOUND := "Creator handle not found on-chain"
  const INTERNAL_ERROR := "Internal Server Error"

  /** The entry written into an empty catalog before the lookup. */
  const DEFAULT_ENTRY := ContentRecord(
    "abc123",
    "Premium Article: The Future of Web3",
    "https://example.com/premium-content",
    "1000000",
    None)

  // ---------------------------------------------------------------- GET

  datatype Param = Param(name: string, caption: string, kind: string, required: bool, description: string)
  datatype Action = Action(kind: string, caption: string, description: string, sourceChain: string,
                           path: string, params: seq<Param>)
  datatype Metadata = Metadata(url: string, icon: string, title: string, baseUrl: string,
                               description: string, actions: seq<Action>)

  /** `a || b` on a header that is absent or a string. */
  function OrDefault(v: Option<string>, fallback: string): (r: string)
    ensures Truthy(v) ==> r == v.value
    ensures v.None? || v.value == "" ==> r == fallback
    ensures fallback != "" ==> r != ""
  {
    if Truthy(v) then v.value else fallback
  }

  /** The GET response: the action metadata, with the base URL taken from
      the `x-forwarded-proto` and `host` headers. `createMetadata` is taken
      to accept this well-formed value unchanged. */
  function GetMetadata(host: Option<string>, proto: Option<string>): (m: Metadata)
    ensures |m.actions| == 1
    ensures m.actions[0].kind == "dynamic" && m.actions[0].path == "/api/app" && m.actions[0].sourceChain == "fuji"
    ensures |m.actions[0].params| == 2
    ensures m.actions[0].params[0].name == CREATOR_HANDLE && m.actions[0].params[1].name == CONTENT_ID
    ensures forall p :: p in m.actions[0].params ==> p.kind == "text" && p.required
    ensures m.baseUrl == OrDefault(proto, "http") + "://" + OrDefault(host, "localhost:3000")
  {
    Metadata(
      "https://payer-tiger-app.vercel.app",
      "https://utfs.io/f/IN4OjmY4wMHBvmNvMjUNZrU4ew9VXkhMBbluWpziOGf6Rt7y",
      "Payer Tiger \U{1F4B2}\U{1F405}",
      OrDefault(proto, "http") + "://" + OrDefault(host, "localhost:3000"),
      "Pay creators for premium content with USDC on Avalanche",
      [Action(
        "dynamic",
        "Unlock Content",
        "Pay the creator to unlock premium content",
        "fuji",
        "/api/app",
        [ Param(CREATOR_HANDLE, "Creator Handle", "text", true, "The creator's handle (e.g., @creator)"),
          Param(CONTENT_ID, "Content ID", "text", true, "The ID of the content to unlock") ])])
  }

  // ---------------------------------------------------------------- POST

  /** The query string as (name, value) pairs in order, already decoded. */
  type Query = seq<(string, string)>

  /** `URLSearchParams.get`: the value of the first pair with the name. */
  function QueryGet(query: Query, name: string): (r: Option<string>)
    ensures r.None? <==> forall i :: 0 <= i < |query| ==> query[i].0 != name
    ensures r.Some? ==>
      exists k :: 0 <= k < |query| && query[k] == (name, r.value) && forall j :: 0 <= j < k ==> query[j].0 != name
  {
    if query == [] then None
    else if query[0].0 == name then Some(query[0].1)
    else QueryGet(query[1..], name)
  }

  /** POST's guard: both parameters present with a non-empty value. */
  predicate HasParams(query: Query)
    ensures !HasParams(query) <==>
      QueryGet(query, CREATOR_HANDLE) in {None, Some("")} || QueryGet(query, CONTENT_ID) in {None, Some("")}
  {
    Truthy(QueryGet(query, CREATOR_HANDLE)) && Truthy(QueryGet(query, CONTENT_ID))
  }

  /** The arguments of `payAndLogAccess(bytes32, string, address, uint256)`. */
  datatype PayCall = PayAndLogAccess(contentId: string, creatorHandle: string, token: string, amount: int)

  /** The unsigned transaction handed to `serializeTransaction`. */
  datatype Transaction = Transaction(to: string, data: string, chainId: nat, txType: string)

  /** The foreign calls, each None where it throws: `readContract(getPayee)`
      (a revert, an unregistered handle or an unreachable node alike),
      `BigInt(priceUSDC)`, `encodeFunctionData` and `serializeTransaction`. */
  datatype Chain = Chain(
    getPayee: string -> Option<string>,
    toBigInt: string -> Option<int>,
    encodeCall: PayCall -> Option<string>,
    serialize: Transaction -> Option<string>)

  datatype UnlockResponse =
    | Execution(serializedTransaction: string, chainId: string)
    | Failed(status: nat, error: string)

  /** A POST's response, both files afterwards, and its effects in order. */
  datatype UnlockOutcome = UnlockOutcome(
    response: UnlockResponse,
    paywall: FileState<Catalog>,
    accessRecords: FileState<seq<string>>,
    effects: seq<Effect>)

  /** JavaScript `s.padEnd(targetLength, fill)` for a one-character fill. */
  function PadEnd(s: string, targetLength: nat, fill: char): (r: string)
    ensures |r| == if |s| >= targetLength then |s| else targetLength
    ensures r[..|s|] == s
    ensures forall i :: |s| <= i < |r| ==> r[i] == fill
    ensures |s| >= targetLength ==> r == s
  {
    if |s| >= targetLength then s else s + seq(targetLength - |s|, _ => fill)
  }

  /** The on-chain content identifier: the raw id padded with '0' to 66
      characters. It is not hex-encoded. */
  function ContentIdBytes32(id: string): (t: string)
    ensures |t| == if |id| >= 66 then |id| else 66
    ensures t[..|id|] == id
    ensures forall i :: |id| <= i < |t| ==> t[i] == '0'
  {
    PadEnd(id, 66, '0')
  }

  predicate IsHexDigit(c: char) {
    '0' <= c <= '9' || 'a' <= c <= 'f' || 'A' <= c <= 'F'
  }

  /** A `0x`-prefixed hex literal of exactly 32 bytes. */
  predicate IsBytes32Hex(t: string) {
    |t| == 66 && t[..2] == "0x" && forall i :: 2 <= i < 66 ==> IsHexDigit(t[i])
  }

  /** The padded identifier is a well-formed bytes32 literal exactly when the
      id itself is `0x` followed by at most 64 hex digits; any other id
      (the seed's "abc123" among them) yields a string that is not one. */
  lemma PaddedIdIsBytes32Iff(id: string)
    ensures IsBytes32Hex(ContentIdBytes32(id)) <==>
      2 <= |id| <= 66 && id[..2] == "0x" && forall i :: 2 <= i < |id| ==> IsHexDigit(id[i])
  {
    var t := ContentIdBytes32(id);
    if |id| < 2 {
      // t[1] is padding, so t does not start with "0x"
      assert t[..2][1] == t[1] == '0';
    } else if |id| <= 66 {
      assert t[..|id|][..2] == t[..2];
      forall i | 2 <= i < |id| ensures t[i] == id[i] {
        assert t[..|id|][i] == t[i];
      }
    }
  }

  /** The catalog after the empty-catalog seeding step. */
  function Seed(catalog: Catalog): (r: Catalog)
    ensures r != []
    ensures catalog != [] ==> r == catalog
    ensures catalog == [] ==> Find(r, DEFAULT_ENTRY.contentId) == Some(DEFAULT_ENTRY)
  {
    if |catalog| == 0 then [DEFAULT_ENTRY] else catalog
  }

  /** The catalog file after reading it and seeding it when empty. */
  function SeededFile(paywall: FileState<Catalog>): (r: FileState<Catalog>)
    ensures r.Stored?
    ensures CatalogOf(r) == Seed(CatalogOf(paywall))
    ensures CatalogOf(paywall) != [] ==> r == paywall
  {
    if CatalogOf(paywall) == [] then Stored([DEFAULT_ENTRY]) else Ensured(paywall, [])
  }

  /** The effects of the seeding step: a read, then a write only when seeding. */
  function SeedEffects(paywall: FileState<Catalog>): (r: seq<Effect>)
    ensures 1 <= |r| <= 2 && r[0] == ReadPaywall
    ensures WritePaywall in r <==> CatalogOf(paywall) == []
    ensures |r| == 2 ==> r[1] == WritePaywall
    ensures forall i :: 0 <= i < |r| ==> !r[i].QueryPayee? && r[i] != EnsureAccessRecords
  {
    if CatalogOf(paywall) == [] then [ReadPaywall, WritePaywall] else [ReadPaywall]
  }

  predicate QueriesChain(effects: seq<Effect>) {
    exists i :: 0 <= i < |effects| && effects[i].QueryPayee?
  }

  /** Price conversion, call encoding, transaction assembly and
      serialisation; None where any of them throws. */
  function SerializedPayment(entry: ContentRecord, handle: string, id: string, chain: Chain): (r: Option<string>)
    ensures chain.toBigInt(entry.priceUSDC).None? ==> r.None?
    ensures chain.toBigInt(entry.priceUSDC).Some? &&
      chain.encodeCall(PayAndLogAccess(ContentIdBytes32(id), handle, USDC_ADDRESS, chain.toBigInt(entry.priceUSDC).value)).None?
      ==> r.None?
    ensures chain.toBigInt(entry.priceUSDC).Some? &&
      chain.encodeCall(PayAndLogAccess(ContentIdBytes32(id), handle, USDC_ADDRESS, chain.toBigInt(entry.priceUSDC).value)).Some?
      ==> r == chain.serialize(Transaction(PAYER_ROUTER_ADDRESS,
        chain.encodeCall(PayAndLogAccess(ContentIdBytes32(id), handle, USDC_ADDRESS, chain.toBigInt(entry.priceUSDC).value)).value,
        FUJI_CHAIN_ID, "legacy"))
  {
    match chain.toBigInt(entry.priceUSDC)
    case None => None
    case Some(amount) =>
      match chain.encodeCall(PayAndLogAccess(ContentIdBytes32(id), handle, USDC_ADDRESS, amount))
      case None => None
      case Some(data) => chain.serialize(Transaction(PAYER_ROUTER_ADDRESS, data, FUJI_CHAIN_ID, "legacy"))
  }

  /** The response once the payee is known: the serialised transaction on
      Fuji, or 500 when any of the remaining steps throws. */
  function PaymentResponse(entry: ContentRecord, handle: string, id: string, chain: Chain): (r: UnlockResponse)
    ensures r.Execution? <==> SerializedPayment(entry, handle, id, chain).Some?
    ensures r.Execution? ==>
      r.serializedTransaction == SerializedPayment(entry, handle, id, chain).value && r.chainId == FUJI_CHAIN_NAME
    ensures r.Failed? ==> r == Failed(500, INTERNAL_ERROR)
  {
    match SerializedPayment(entry, handle, id, chain)
    case None => Failed(500, INTERNAL_ERROR)
    case Some(s) => Execution(s, FUJI_CHAIN_NAME)
  }

  /** A serialised payment is the router-bound Fuji transaction carrying the
      call `payAndLogAccess(padded id, handle, USDC, price of the entry)`. */
  lemma SerializedPaymentShape(entry: ContentRecord, handle: string, id: string, chain: Chain)
    requires SerializedPayment(entry, handle, id, chain).Some?
    ensures chain.toBigInt(entry.priceUSDC).Some?
    ensures var call := PayAndLogAccess(ContentIdBytes32(id), handle, USDC_ADDRESS, chain.toBigInt(entry.priceUSDC).value);
      && call.contentId[..|id|] == id
      && |call.contentId| == (if |id| >= 66 then |id| else 66)
      && chain.encodeCall(call).Some?
      && chain.serialize(Transaction(PAYER_ROUTER_ADDRESS, chain.encodeCall(call).value, FUJI_CHAIN_ID, "legacy"))
         == SerializedPayment(entry, handle, id, chain)
  {
  }

  /** What POST does, given the query, both files and the chain. */
  function BuildUnlock(query: Query, paywall: FileState<Catalog>, access: FileState<seq<string>>, chain: Chain): (r: UnlockOutcome)
    // missing parameters: 400, nothing touched, no chain call
    ensures !HasParams(query) ==> r == UnlockOutcome(Failed(400, MISSING_PARAMS), paywall, access, [])
    // otherwise the catalog is read first, and seeded exactly when it is empty
    ensures HasParams(query) ==> |r.effects| > 0 && r.effects[0] == ReadPaywall
    ensures HasParams(query) ==> CatalogOf(r.paywall) == Seed(CatalogOf(paywall))
    ensures HasParams(query) && CatalogOf(paywall) == [] ==>
      r.paywall == Stored([DEFAULT_ENTRY]) && |r.effects| > 1 && r.effects[1] == WritePaywall
    ensures HasParams(query) && CatalogOf(paywall) != [] ==> r.paywall == paywall && WritePaywall !in r.effects
    // the lookup precedes the chain call
    ensures QueriesChain(r.effects) ==>
      HasParams(query) && Find(Seed(CatalogOf(paywall)), QueryGet(query, CONTENT_ID).value).Some?
    ensures HasParams(query) && Find(Seed(CatalogOf(paywall)), QueryGet(query, CONTENT_ID).value).None? ==>
      r.response == Failed(404, CONTENT_NOT_FOUND) && r.accessRecords == access && r.effects == SeedEffects(paywall)
    ensures HasParams(query) && Find(Seed(CatalogOf(paywall)), QueryGet(query, CONTENT_ID).value).Some? ==>
      && r.accessRecords == Ensured(access, [])
      && |r.effects| >= 2
      && r.effects[|r.effects| - 2] == EnsureAccessRecords
      && r.effects[|r.effects| - 1] == QueryPayee(QueryGet(query, CREATOR_HANDLE).value)
      && r.effects == SeedEffects(paywall) + [EnsureAccessRecords, QueryPayee(QueryGet(query, CREATOR_HANDLE).value)]
      && r.response ==
         if chain.getPayee(QueryGet(query, CREATOR_HANDLE).value).None? then Failed(404, PAYEE_NOT_FOUND)
         else PaymentResponse(Find(Seed(CatalogOf(paywall)), QueryGet(query, CONTENT_ID).value).value,
                              QueryGet(query, CREATOR_HANDLE).value, QueryGet(query, CONTENT_ID).value, chain)
    // a transaction comes out only when every step succeeded
    ensures r.response.Execution? ==>
      && HasParams(query)
      && Find(Seed(CatalogOf(paywall)), QueryGet(query, CONTENT_ID).value).Some?
      && chain.getPayee(QueryGet(query, CREATOR_HANDLE).value).Some?
      && r.response.chainId == FUJI_CHAIN_NAME
  {
    var handle := QueryGet(query, CREATOR_HANDLE);
    var id := QueryGet(query, CONTENT_ID);
    if !Truthy(handle) || !Truthy(id) then
      UnlockOutcome(Failed(400, MISSING_PARAMS), paywall, access, [])
    else
      var seeded := Seed(CatalogOf(paywall));
      var paywall' := SeededFile(paywall);
      var effects := SeedEffects(paywall);
      match Find(seeded, id.value)
      case None =>
        UnlockOutcome(Failed(404, CONTENT_NOT_FOUND), paywall', access, effects)
      case Some(entry) =>
        var access' := Ensured(access, []);
        var effects' := effects + [EnsureAccessRecords, QueryPayee(handle.value)];
        if chain.getPayee(handle.value).None? then
          UnlockOutcome(Failed(404, PAYEE_NOT_FOUND), paywall', access', effects')
        else
          UnlockOutcome(PaymentResponse(entry, handle.value, id.value, chain), paywall', access', effects')
  }

  /** The metadata's required parameters are exactly what POST checks: a
      query passes the 400 check iff it gives every advertised parameter a
      non-empty value. */
  lemma MetadataParamsMatchQuery(query: Query, host: Option<string>, proto: Option<string>)
    ensures HasParams(query) <==>
      forall p :: p in GetMetadata(host, proto).actions[0].params ==> Truthy(QueryGet(query, p.name))
  {
  }

  /** Seeding keeps catalog ids distinct. */
  lemma UnlockPreservesDistinct(query: Query, paywall: FileState<Catalog>, access: FileState<seq<string>>, chain: Chain)
    requires DistinctIds(CatalogOf(paywall))
    ensures DistinctIds(CatalogOf(BuildUnlock(query, paywall, access, chain).paywall))
  {
  }

  /** The documented end-to-end case: on a fresh data directory, unlocking
      "abc123" for "creator1" seeds the catalog and encodes the call for the
      id padded with sixty '0's and the seed price 1000000. */
  lemma UnlockSeededExample(chain: Chain)
    requires chain.getPayee("creator1").Some?
    requires chain.toBigInt("1000000") == Some(1000000)
    requires chain.encodeCall(PayAndLogAccess("abc123" + seq(60, _ => '0'),
                                              "creator1", USDC_ADDRESS, 1000000)).Some?
    ensures var data := chain.encodeCall(PayAndLogAccess("abc123" + seq(60, _ => '0'),
                                                         "creator1", USDC_ADDRESS, 1000000)).value;
      var r := BuildUnlock([(CREATOR_HANDLE, "creator1"), (CONTENT_ID, "abc123")], Missing, Missing, chain);
      && r.paywall == Stored([DEFAULT_ENTRY])
      && r.accessRecords == Stored([])
      && r.effects == [ReadPaywall, WritePaywall, EnsureAccessRecords, QueryPayee("creator1")]
      && r.response == match chain.serialize(Transaction(PAYER_ROUTER_ADDRESS, data, FUJI_CHAIN_ID, "legacy"))
                       case None => Failed(500, INTERNAL_ERROR)
                       case Some(s) => Execution(s, FUJI_CHAIN_NAME)
  {
    var q := [(CREATOR_HANDLE, "creator1"), (CONTENT_ID, "abc123")];
    assert QueryGet(q, CREATOR_HANDLE) == Some("creator1");
    assert QueryGet(q, CONTENT_ID) == Some("abc123");
  }

  /** Padding the id, converting the price, encoding the call, assembling
      and serialising the transaction; any step that throws gives 500. */
  method AssembleTransaction(entry: ContentRecord, handle: string, id: string, chain: Chain) returns (resp: UnlockResponse)
    ensures resp == PaymentResponse(entry, handle, id, chain)
    ensures resp.Execution? ==> resp.chainId == FUJI_CHAIN_NAME
  {
    var contentIdBytes32 := ContentIdBytes32(id);
    var amount := chain.toBigInt(entry.priceUSDC);
    if amount.None? {
      resp := Failed(500, INTERNAL_ERROR);
      return;
    }
    var payAndLogAccessData := chain.encodeCall(PayAndLogAccess(contentIdBytes32, handle, USDC_ADDRESS, amount.value));
    if payAndLogAccessData.None? {
      resp := Failed(500, INTERNAL_ERROR);
      return;
    }
    var transaction := Transaction(PAYER_ROUTER_ADDRESS, payAndLogAccessData.value, FUJI_CHAIN_ID, "legacy");
    var serializedTransaction := chain.serialize(transaction);
    if serializedTransaction.None? {
      resp := Failed(500, INTERNAL_ERROR);
      return;
    }
    resp := Execution(serializedTransaction.value, FUJI_CHAIN_NAME);
  }

  /** Reads the catalog and, when it is empty, seeds it with the default
      entry and persists it. */
  method LoadCatalog(paywall: JsonFile<Catalog>) returns (paywallData: Catalog, effects: seq<Effect>)
    modifies paywall
    ensures paywallData == Seed(CatalogOf(old(paywall.state)))
    ensures paywall.state == SeededFile(old(paywall.state))
    ensures effects == SeedEffects(old(paywall.state))
  {
    paywallData := paywall.ReadJsonFile([]);
    effects := [ReadPaywall];
    if |paywallData| == 0 {
      paywallData := paywallData + [DEFAULT_ENTRY];
      assert paywallData == [DEFAULT_ENTRY];
      paywall.WriteFile(paywallData);
      effects := effects + [WritePaywall];
    }
  }

  /** POST, step by step as the route does it. */
  method Post(paywall: JsonFile<Catalog>, accessRecords: JsonFile<seq<string>>, query: Query, chain: Chain)
    returns (resp: UnlockResponse, effects: seq<Effect>)
    modifies paywall, accessRecords
    ensures UnlockOutcome(resp, paywall.state, accessRecords.state, effects)
         == BuildUnlock(query, old(paywall.state), old(accessRecords.state), chain)
  {
    effects := [];
    var creatorHandle := QueryGet(query, CREATOR_HANDLE);
    var contentId := QueryGet(query, CONTENT_ID);
    if !Truthy(creatorHandle) || !Truthy(contentId) {
      resp := Failed(400, MISSING_PARAMS);
      return;
    }
    var paywallData;
    paywallData, effects := LoadCatalog(paywall);
    var paywallEntry := Find(paywallData, contentId.value);
    if paywallEntry.None? {
      resp := Failed(404, CONTENT_NOT_FOUND);
      return;
    }
    accessRecords.EnsureFileExists([]);
    effects := effects + [EnsureAccessRecords];
    var creatorAddress := chain.getPayee(creatorHandle.value);
    effects := effects + [QueryPayee(creatorHandle.value)];
    if creatorAddress.None? {
      resp := Failed(404, PAYEE_NOT_FOUND);
      return;
    }
    resp := AssembleTransaction(paywallEntry.value, creatorHandle.value, contentId.value, chain);
  }
}
