/** Transaction ids of the form PREFIX-CLICKID-SOURCEID, read by two different parsers. */
module TransactionIds {
  import opened Common
  import opened JsStrings

  /** The text a marketer's landing page is expected to send. */
  function Compose(prefix: string, click: string, source: string): string {
    prefix + "-" + (click + "-" + source)
  }

  /** `MarketerAttributionResolver.getMarketerPrefix` */
  function MarketerPrefix(trxId: string): (prefix: string)
    ensures prefix == Before(trxId, '-')
  {
    FirstPiece(trxId, '-');
    Split(trxId, "-")[0]
  }

  /** `PostbackService.extractClickAndSourceId` */
  function ClickAndSource(trxId: string, prefix: string): (string, string) {
    if Includes(trxId, prefix) then
      var byPrefix := Split(trxId, prefix + "-");
      if |byPrefix| > 1 then
        var ids := Split(byPrefix[1], "-");
        (ids[0], if |ids| > 1 then ids[1] else "")
      else ("", "")
    else
      var parts := Split(trxId, "-");
      (if |parts| > 1 then parts[1] else "", if |parts| > 2 then parts[2] else "")
  }

  /** Within "click-source" the text "prefix-" can only sit where `click` ends with the prefix. */
  lemma PrefixOccurrence(prefix: string, click: string, source: string, i: nat)
    requires CharFree(prefix, '-') && CharFree(click, '-') && CharFree(source, '-')
    requires OccursAt(click + "-" + source, prefix + "-", i)
    ensures EndsWith(click, prefix) && i == |click| - |prefix|
  {
    var rest := click + "-" + source;
    var sep := prefix + "-";
    assert rest[i + |prefix|] == rest[i..i + |sep|][|prefix|] == '-';
    assert forall k :: 0 <= k < |rest| && k != |click| ==> rest[k] != '-';
    assert click[i..] == rest[i..i + |sep|][..|prefix|] == prefix;
  }

  lemma PrefixOccursAtEnd(prefix: string, click: string, source: string)
    requires EndsWith(click, prefix)
    ensures OccursAt(click + "-" + source, prefix + "-", |click| - |prefix|)
  {}

  lemma PrefixIndex(prefix: string, click: string, source: string)
    requires CharFree(prefix, '-') && CharFree(click, '-') && CharFree(source, '-')
    ensures IndexOf(click + "-" + source, prefix + "-")
         == if EndsWith(click, prefix) then Some(|click| - |prefix|) else None
  {
    var found := IndexOf(click + "-" + source, prefix + "-");
    if EndsWith(click, prefix) {
      PrefixOccursAtEnd(prefix, click, source);
    }
    if found.Some? {
      PrefixOccurrence(prefix, click, source, found.value);
    }
  }

  /** Splitting "prefix-rest" on "prefix-" leaves an empty piece in front of the pieces of `rest`. */
  lemma LeadingPrefix(prefix: string, rest: string)
    requires CharFree(prefix, '-')
    ensures Split(prefix + "-" + rest, prefix + "-") == [""] + Split(rest, prefix + "-")
    ensures Includes(prefix + "-" + rest, prefix)
    ensures MarketerPrefix(prefix + "-" + rest) == prefix
  {
    var trx, sep := prefix + "-" + rest, prefix + "-";
    assert trx[0..|sep|] == sep && trx[0..|prefix|] == prefix && trx[|sep|..] == rest && trx[..0] == "";
    assert OccursAt(trx, sep, 0) && OccursAt(trx, prefix, 0);
    SplitCons(prefix, '-', rest);
  }

  lemma ParsedIds(prefix: string, rest: string, piece: string)
    requires CharFree(prefix, '-') && piece == Split(rest, prefix + "-")[0]
    ensures var ids := Split(piece, "-");
            ClickAndSource(prefix + "-" + rest, prefix) == (ids[0], if |ids| > 1 then ids[1] else "")
  {}

  lemma IdsRecovered(prefix: string, click: string, source: string)
    requires CharFree(prefix, '-') && CharFree(click, '-') && CharFree(source, '-')
    requires !EndsWith(click, prefix)
    ensures ClickAndSource(prefix + "-" + (click + "-" + source), prefix) == (click, source)
  {
    var rest := click + "-" + source;
    PrefixIndex(prefix, click, source);
    SplitHead(rest, prefix + "-");
    ParsedIds(prefix, rest, rest);
    SplitCons(click, '-', source);
    SplitNone(source, '-');
  }

  lemma IdsCut(prefix: string, click: string, source: string)
    requires CharFree(prefix, '-') && CharFree(click, '-') && CharFree(source, '-')
    requires EndsWith(click, prefix)
    ensures ClickAndSource(prefix + "-" + (click + "-" + source), prefix) == (click[..|click| - |prefix|], "")
  {
    var rest, cut := click + "-" + source, |click| - |prefix|;
    PrefixIndex(prefix, click, source);
    SplitHead(rest, prefix + "-");
    assert rest[..cut] == click[..cut];
    ParsedIds(prefix, rest, click[..cut]);
    SplitNone(click[..cut], '-');
  }

  /** The resolver recovers the prefix always; the postback parser recovers the click and source ids
      exactly when the click id does not itself end with the prefix. */
  lemma RoundTrip(prefix: string, click: string, source: string)
    requires prefix != ""
    requires CharFree(prefix, '-') && CharFree(click, '-') && CharFree(source, '-')
    ensures MarketerPrefix(Compose(prefix, click, source)) == prefix
    ensures ClickAndSource(Compose(prefix, click, source), prefix) == (click, source) <==> !EndsWith(click, prefix)
  {
    LeadingPrefix(prefix, click + "-" + source);
    if EndsWith(click, prefix) {
      IdsCut(prefix, click, source);
      assert |click[..|click| - |prefix|]| < |click|;
    } else {
      IdsRecovered(prefix, click, source);
    }
  }

  lemma NoDash(s: string, prefix: string)
    requires CharFree(s, '-')
    ensures IndexOf(s, prefix + "-").None?
  {
    forall i: nat
      ensures OccursAt(s, prefix + "-", i) ==> s[i..i + |prefix| + 1][|prefix|] == s[i + |prefix|] == '-'
    {}
  }

  /** Ids that are not complete: without a source it is read as empty, and the prefix alone gives no ids. */
  lemma PartialIds(prefix: string, click: string)
    requires CharFree(prefix, '-') && CharFree(click, '-')
    ensures ClickAndSource(prefix + "-" + click, prefix) == (click, "")
    ensures ClickAndSource(prefix, prefix) == ("", "")
  {
    NoDash(click, prefix);
    SplitHead(click, prefix + "-");
    ParsedIds(prefix, click, click);
    SplitNone(click, '-');
    assert OccursAt(prefix, prefix, 0);
  }

  /** The fallback branch takes the second and the third piece, and nothing for those that are missing. */
  lemma IdsWithoutPrefix(first: string, click: string, source: string, prefix: string)
    requires CharFree(first, '-') && CharFree(click, '-') && CharFree(source, '-')
    ensures !Includes(Compose(first, click, source), prefix) ==>
      ClickAndSource(Compose(first, click, source), prefix) == (click, source)
    ensures !Includes(first + "-" + click, prefix) ==> ClickAndSource(first + "-" + click, prefix) == (click, "")
    ensures !Includes(first, prefix) ==> ClickAndSource(first, prefix) == ("", "")
  {
    SplitCons(first, '-', click + "-" + source);
    SplitCons(click, '-', source);
    SplitNone(source, '-');
    SplitCons(first, '-', click);
    SplitNone(click, '-');
    SplitNone(first, '-');
  }

  /** Whatever the id, a non-empty prefix read from it occurs in it, so the parser's fallback branch is never taken. */
  lemma PrefixIsIncluded(trxId: string)
    ensures Includes(trxId, MarketerPrefix(trxId))
  {}

  /** Whatever text arrives as a transaction id, the ids read from it are free of dashes. */
  lemma IdsAreDashFree(trxId: string, prefix: string)
    ensures
      var (click, source) := ClickAndSource(trxId, prefix);
      CharFree(click, '-') && CharFree(source, '-')
  {
    hide IndexOf, Split;
    var whole := Split(trxId, "-");
    forall k | 0 <= k < |whole|
      ensures CharFree(whole[k], '-')
    {
      SplitPieces(trxId, '-', k);
    }
    var byPrefix := Split(trxId, prefix + "-");
    if |byPrefix| > 1 {
      var ids := Split(byPrefix[1], "-");
      forall k | 0 <= k < |ids|
        ensures CharFree(ids[k], '-')
      {
        SplitPieces(byPrefix[1], '-', k);
      }
    }
  }
}
