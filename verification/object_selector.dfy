/**
 * Discovery of the custom metadata types among the org's object listing:
 * names carrying the reserved `__mdt` suffix.
 */
module ObjectSelector {
  import opened Wrappers
  import Selection

  /** One entry of the listing's `result` array; `None` when it has no `fullName` key. */
  datatype ListingEntry = ListingEntry(fullName: Option<string>)

  /** A parsed listing; `None` when it has no `result` key. */
  datatype Listing = Listing(result: Option<seq<ListingEntry>>)

  /**
   * What the listing call returns: the parsed reply, or the empty list it
   * returns when the command fails or reports a non-zero status.
   */
  datatype ListingReply = Parsed(listing: Listing) | FailedCall

  const CmdtSuffix: string := "__mdt"

  predicate EndsWith(s: string, suffix: string) {
    |suffix| <= |s| && s[|s| - |suffix|..] == suffix
  }

  /** An absent name reads as the empty string, which has no suffix. */
  predicate IsCmdt(e: ListingEntry) {
    EndsWith(e.fullName.GetOr(""), CmdtSuffix)
  }

  function FullName(e: ListingEntry): string {
    e.fullName.GetOr("")
  }

  function Entries(listing: Listing): seq<ListingEntry> {
    listing.result.GetOr([])
  }

  /** The full names of the listed custom metadata types, in listing order. */
  function FilterCmdtOut(listing: Listing): (names: seq<string>)
    ensures |names| <= |Entries(listing)|
    ensures forall k :: 0 <= k < |names| ==> EndsWith(names[k], CmdtSuffix)
  {
    Selection.SelectAll(Entries(listing), IsCmdt, FullName, s => EndsWith(s, CmdtSuffix));
    Selection.Select(Entries(listing), IsCmdt, FullName)
  }

  /**
   * The filter as written, applied to what the listing call returns: `None`
   * when it raises, as `.get` does on the empty list of a failed call.
   */
  function FilterCmdtOutAsWritten(reply: ListingReply): (r: Option<seq<string>>)
    ensures r.None? <==> reply.FailedCall?
  {
    match reply
    case Parsed(listing) => Some(FilterCmdtOut(listing))
    case FailedCall => None
  }

  /** The filter as intended: a failed call lists no objects, so it finds no names. */
  function FilterCmdtOutOfReply(reply: ListingReply): (names: seq<string>)
    ensures reply.FailedCall? ==> names == []
    ensures forall k :: 0 <= k < |names| ==> EndsWith(names[k], CmdtSuffix)
  {
    match reply
    case Parsed(listing) => FilterCmdtOut(listing)
    case FailedCall => []
  }

  /**
   * The filter returns, in order, exactly the names of the entries whose
   * `fullName` is present and ends in `__mdt`.
   */
  lemma FilterCmdtOutExactly(listing: Listing) returns (idx: seq<nat>)
    ensures Selection.IsSelection(Entries(listing), FilterCmdtOut(listing), IsCmdt, FullName, idx)
    ensures forall k :: 0 <= k < |idx| ==>
      && Entries(listing)[idx[k]].fullName == Some(FilterCmdtOut(listing)[k])
      && EndsWith(FilterCmdtOut(listing)[k], CmdtSuffix)
    ensures forall i :: 0 <= i < |Entries(listing)| && Entries(listing)[i].fullName.None? ==> i !in idx
  {
    idx := Selection.SelectIndices(Entries(listing), IsCmdt, FullName);
    forall k | 0 <= k < |idx|
      ensures Entries(listing)[idx[k]].fullName == Some(FilterCmdtOut(listing)[k])
    {
      assert IsCmdt(Entries(listing)[idx[k]]);
    }
  }

  /** Without a `result` key the filter finds nothing. */
  lemma FilterCmdtOutWithoutResult()
    ensures FilterCmdtOut(Listing(None)) == []
  {
  }

  /**
   * `Account` and an entry without a name are dropped; `Config__mdt` is
   * kept, and so is a name that is only the suffix.
   */
  lemma FilterCmdtOutExample()
    ensures FilterCmdtOut(Listing(Some([
      ListingEntry(Some("Account")), ListingEntry(Some("Config__mdt")),
      ListingEntry(None), ListingEntry(Some("__mdt"))]))) == ["Config__mdt", "__mdt"]
  {
    var a, c, n, m := ListingEntry(Some("Account")), ListingEntry(Some("Config__mdt")),
      ListingEntry(None), ListingEntry(Some("__mdt"));
    ExampleEntriesClassified();
    ExampleSelection(a, c, n, m);
    assert Entries(Listing(Some([a, c, n, m]))) == [a, c, n, m];
  }

  /** The example's selection, one entry at a time. */
  lemma ExampleSelection(a: ListingEntry, c: ListingEntry, n: ListingEntry, m: ListingEntry)
    requires !IsCmdt(a) && IsCmdt(c) && !IsCmdt(n) && IsCmdt(m)
    ensures Selection.Select([a, c, n, m], IsCmdt, FullName) == [FullName(c), FullName(m)]
  {
    assert Selection.Select([a], IsCmdt, FullName) == [] by {
      Selection.SelectSnoc([], a, IsCmdt, FullName);
      assert [] + [a] == [a];
    }
    assert Selection.Select([a, c], IsCmdt, FullName) == [FullName(c)] by {
      Selection.SelectSnoc([a], c, IsCmdt, FullName);
      assert [a] + [c] == [a, c];
    }
    assert Selection.Select([a, c, n], IsCmdt, FullName) == [FullName(c)] by {
      Selection.SelectSnoc([a, c], n, IsCmdt, FullName);
      assert [a, c] + [n] == [a, c, n];
    }
    Selection.SelectSnoc([a, c, n], m, IsCmdt, FullName);
    assert [a, c, n] + [m] == [a, c, n, m];
  }

  /** Which of the example's entries name custom metadata types. */
  lemma ExampleEntriesClassified()
    ensures !IsCmdt(ListingEntry(Some("Account"))) && IsCmdt(ListingEntry(Some("Config__mdt")))
    ensures !IsCmdt(ListingEntry(None)) && IsCmdt(ListingEntry(Some("__mdt")))
  {
    assert "Account"[2..][0] == 'c';
    assert "Config__mdt"[6..] == "__mdt";
  }

  /**
   * As written, the filter raises on the value the listing call returns
   * after a failure.
   */
  lemma FailedListingRaises()
    ensures FilterCmdtOutAsWritten(FailedCall).None?
    ensures FilterCmdtOutOfReply(FailedCall) == []
  {
  }

  /**
   * The intended filter agrees with the filter as written wherever the
   * latter does not raise, and after a failure it behaves as on a listing
   * without a `result` key.
   */
  lemma FilterCmdtOutOfReplyAgrees(reply: ListingReply)
    ensures FilterCmdtOutAsWritten(reply).Some? ==> FilterCmdtOutAsWritten(reply).value == FilterCmdtOutOfReply(reply)
    ensures reply.FailedCall? ==> FilterCmdtOutOfReply(reply) == FilterCmdtOut(Listing(None))
  {
  }
}
