/** The paywall catalog shared by both request handlers: the content records,
    the exact-match lookup both handlers perform with `find`, the uniqueness
    invariant on content ids, and the observable side effects a request can have. */
module Catalog {
  import opened JsonStore

  datatype Option<T> = None | Some(value: T)

  /** One catalog entry. `createdAt` is absent on the seed entry the unlock
      handler writes, which is the only record created without a timestamp. */
  datatype ContentRecord = ContentRecord(
    contentId: string,
    title: string,
    unlockableUrl: string,
    priceUSDC: string,
    createdAt: Option<string>)

  /** The catalog in insertion order. */
  type Catalog = seq<ContentRecord>

  /** The catalog a handler sees in the paywall file: the stored array, or
      the default `[]` when the file is missing or unparsable. */
  function CatalogOf(f: FileState<Catalog>): Catalog {
    ReadValue(f, [])
  }

  /** Side effects a request handler performs, in the order it performs them. */
  datatype Effect =
    | ReadPaywall                    // readJsonFile on the catalog file (may create it)
    | WritePaywall                   // the whole catalog rewritten
    | EnsureAccessRecords            // the access-records file created if absent
    | QueryPayee(handle: string)     // the on-chain getPayee call

  /** JavaScript truthiness of a value that is either absent or a string. */
  predicate Truthy(v: Option<string>) {
    v.Some? && v.value != ""
  }

  /** Content ids are pairwise distinct. */
  ghost predicate DistinctIds(catalog: Catalog) {
    forall i, j :: 0 <= i < j < |catalog| ==> catalog[i].contentId != catalog[j].contentId
  }

  /** `Array.prototype.find` with the predicate `item.contentId === id`. */
  function Find(catalog: Catalog, id: string): (r: Option<ContentRecord>)
    ensures r.None? <==> forall i :: 0 <= i < |catalog| ==> catalog[i].contentId != id
    ensures r.Some? ==> r.value in catalog && r.value.contentId == id
  {
    if catalog == [] then None
    else if catalog[0].contentId == id then Some(catalog[0])
    else Find(catalog[1..], id)
  }

  /** Find returns the FIRST record with the id, not just any. */
  lemma {:induction false} FindFirst(catalog: Catalog, id: string, k: nat)
    requires k < |catalog| && catalog[k].contentId == id
    requires forall j :: 0 <= j < k ==> catalog[j].contentId != id
    ensures Find(catalog, id) == Some(catalog[k])
  {
    if k > 0 {
      assert catalog[0].contentId != id;
      FindFirst(catalog[1..], id, k - 1);
    }
  }

  /** Appending a record changes the lookup only for its own id, and only
      when that id was not present before. */
  lemma {:induction false} FindAppend(catalog: Catalog, rec: ContentRecord, id: string)
    ensures Find(catalog + [rec], id) ==
      if Find(catalog, id).Some? then Find(catalog, id)
      else if rec.contentId == id then Some(rec)
      else None
  {
    if catalog == [] {
      assert catalog + [rec] == [rec];
    } else {
      assert (catalog + [rec])[0] == catalog[0];
      assert (catalog + [rec])[1..] == catalog[1..] + [rec];
      FindAppend(catalog[1..], rec, id);
    }
  }

  /** With distinct ids, looking up any record's id finds exactly that record. */
  lemma FindDistinct(catalog: Catalog, k: nat)
    requires DistinctIds(catalog) && k < |catalog|
    ensures Find(catalog, catalog[k].contentId) == Some(catalog[k])
  {
  }

  /** Appending a record whose id is absent keeps the ids distinct. */
  lemma AppendKeepsDistinct(catalog: Catalog, rec: ContentRecord)
    requires DistinctIds(catalog) && Find(catalog, rec.contentId).None?
    ensures DistinctIds(catalog + [rec])
  {
  }
}
