/**
 * What the bundle callback does with the tool's output: it trims the
 * trailing whitespace, adds one line feed, and either appends the result to
 * the document or puts it in place of the selection. The document is its
 * text; an edit is the splice of a range.
 */
module Insertion {
  import opened JsText
  import opened Settings

  /** A range of the document, as character offsets. */
  datatype Range = Range(start: nat, end: nat)

  predicate ValidRange(doc: string, r: Range) {
    r.start <= r.end <= |doc|
  }

  /** `value.trimEnd() + '\n'`. */
  function InsertionText(out: string): (t: string)
    ensures |t| >= 1 && t[|t| - 1] == '\n'
    ensures t[..|t| - 1] <= out
    ensures |t| == 1 || !IsTrimmable(t[|t| - 2])
    ensures forall i :: |t| - 1 <= i < |out| ==> IsTrimmable(out[i])
  {
    TrimEnd(out) + "\n"
  }

  /** The document after replacing the range `r` by `ins`. */
  function Splice(doc: string, r: Range, ins: string): (res: string)
    requires ValidRange(doc, r)
    ensures |res| == |doc| - (r.end - r.start) + |ins|
    ensures res[..r.start] == doc[..r.start]
    ensures res[r.start..r.start + |ins|] == ins
    ensures res[r.start + |ins|..] == doc[r.end..]
  {
    doc[..r.start] + ins + doc[r.end..]
  }

  /**
   * The edit the bundle callback makes: with `cursor`, the selection is
   * replaced; otherwise the text goes at the end of the last line, which is
   * the end of the document.
   */
  function Place(doc: string, pos: InsertionPosition, selection: Range, out: string): (res: string)
    requires ValidRange(doc, selection)
    ensures pos == Last ==> res == doc + InsertionText(out)
    ensures pos == Cursor ==>
              res == doc[..selection.start] + InsertionText(out) + doc[selection.end..]
  {
    match pos
    case Cursor => Splice(doc, selection, InsertionText(out))
    case Last =>
      assert doc[..|doc|] == doc && doc[|doc|..] == [];
      Splice(doc, Range(|doc|, |doc|), InsertionText(out))
  }

  /**
   * With `cursor`, only the selection changes: putting the replaced text
   * back over the insertion restores the document.
   */
  lemma PlaceCursorUndo(doc: string, selection: Range, out: string)
    requires ValidRange(doc, selection)
    ensures var res := Place(doc, Cursor, selection, out);
            var inserted := Range(selection.start, selection.start + |InsertionText(out)|);
            ValidRange(res, inserted)
            && Splice(res, inserted, doc[selection.start..selection.end]) == doc
  {
    var res := Place(doc, Cursor, selection, out);
    var t := InsertionText(out);
    var inserted := Range(selection.start, selection.start + |t|);
    assert res[..selection.start] + doc[selection.start..selection.end] + res[selection.start + |t|..]
           == doc[..selection.start] + doc[selection.start..selection.end] + doc[selection.end..];
    assert doc == doc[..selection.start] + doc[selection.start..selection.end] + doc[selection.end..];
  }

  /** The inserted text ends in exactly one line feed: normalising it again changes nothing. */
  lemma InsertionTextIdempotent(out: string)
    ensures InsertionText(InsertionText(out)) == InsertionText(out)
  {
    var t := TrimEnd(out);
    assert (t + "\n")[..|t|] == t;
    assert TrimEnd(t + "\n") == TrimEnd(t) by {
      assert IsTrimmable('\n');
    }
    TrimEndIdempotent(out);
  }

  /** Trimming an already trimmed string leaves it alone. */
  lemma TrimEndIdempotent(s: string)
    ensures TrimEnd(TrimEnd(s)) == TrimEnd(s)
  {
  }

  /**
   * Output that already ends in one line feed after non-whitespace, such as
   * `"fn foo() {}\n"`, is appended to the document unchanged.
   */
  lemma PlaceLastNormalised(doc: string, selection: Range, code: string)
    requires ValidRange(doc, selection)
    requires code == [] || !IsTrimmable(code[|code| - 1])
    ensures Place(doc, Last, selection, code + "\n") == doc + code + "\n"
  {
    TrimEndSuffix(code, "\n");
  }
}
