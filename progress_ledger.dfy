/** The progress file: one patch identifier per line, only ever appended to. At startup its lines
    become the set of patches already scanned. */
module ProgressLedger {
  import opened Wrappers
  import opened Text

  /** The text appended for a run of committed identifiers, `id + "\n"` each, in order. */
  function LedgerText(ids: seq<string>): string {
    if ids == [] then "" else LedgerText(ids[..|ids| - 1]) + ids[|ids| - 1] + "\n"
  }

  /** Committing one more identifier appends its line. */
  lemma LedgerSnoc(ids: seq<string>, id: string)
    ensures LedgerText(ids + [id]) == LedgerText(ids) + id + "\n"
  {
    assert (ids + [id])[..|ids|] == ids;
  }

  /** Identifiers that each fit on one line. */
  predicate OneLineEach(ids: seq<string>) {
    forall i :: 0 <= i < |ids| ==> '\n' !in ids[i]
  }

  /** A progress file written only by whole-line appends: empty or ending in a line break. */
  predicate LineTerminated(text: string) {
    text == [] || text[|text| - 1] == '\n'
  }

  /** The set loaded at startup: the file's lines, or nothing when the file does not exist. */
  function Loaded(file: Option<string>): set<string> {
    match file
    case None => {}
    case Some(text) => set line | line in SplitLines(text)
  }

  /** Appending one line to a line-terminated file adds exactly that line to its lines. */
  lemma {:induction false} SplitLinesAppend(text: string, id: string)
    requires LineTerminated(text) && '\n' !in id
    ensures SplitLines(text + id + "\n") == SplitLines(text) + [id]
    ensures LineTerminated(text + id + "\n")
    decreases |text|
  {
    if text == [] {
      assert text + id + "\n" == id + "\n" + "";
      SplitLinesCons(id, "");
    } else {
      var line, rest := FirstLine(text);
      var tail := rest + id + "\n";
      calc {
        SplitLines(text + id + "\n");
        { AppendLine(line + "\n", rest, id); }
        SplitLines(line + "\n" + tail);
        { SplitLinesCons(line, tail); }
        [line] + SplitLines(tail);
        { SplitLinesAppend(rest, id); }
        [line] + (SplitLines(rest) + [id]);
        { ConcatAssoc([line], SplitLines(rest), [id]); }
        ([line] + SplitLines(rest)) + [id];
        { SplitLinesCons(line, rest); }
        SplitLines(text) + [id];
      }
    }
  }

  /** A line-terminated text that is not empty is a first line, its break, and a line-terminated
      remainder. */
  lemma FirstLine(text: string) returns (line: string, rest: string)
    requires LineTerminated(text) && text != []
    ensures text == line + "\n" + rest && '\n' !in line
    ensures LineTerminated(rest) && |rest| < |text|
  {
    var k := Find(text, '\n');
    line, rest := text[..k], text[k + 1..];
    assert text == line + "\n" + rest;
  }

  /** Appending a run of identifiers to a line-terminated file adds exactly those lines: the ids
      a run writes are the ids the next run reads back. */
  lemma {:induction false} ReadBack(text: string, ids: seq<string>)
    requires LineTerminated(text)
    requires OneLineEach(ids)
    ensures SplitLines(text + LedgerText(ids)) == SplitLines(text) + ids
    ensures LineTerminated(text + LedgerText(ids))
  {
    if ids != [] {
      var n := |ids| - 1;
      var front := text + LedgerText(ids[..n]);
      assert OneLineEach(ids[..n]) && '\n' !in ids[n];
      ReadBack(text, ids[..n]);
      AppendLine(text, LedgerText(ids[..n]), ids[n]);
      assert text + LedgerText(ids) == front + ids[n] + "\n";
      SplitLinesAppend(front, ids[n]);
      LastSplit(ids);
    } else {
      assert text + LedgerText(ids) == text;
    }
  }

  lemma AppendLine(a: string, b: string, line: string)
    ensures a + (b + line + "\n") == (a + b) + line + "\n"
  {
  }

  lemma LastSplit(ids: seq<string>)
    requires ids != []
    ensures ids == ids[..|ids| - 1] + [ids[|ids| - 1]]
  {
  }

  /** The set a later run loads is the set this run loaded from plus everything it committed. */
  lemma Reload(file: Option<string>, ids: seq<string>)
    requires file.Some? ==> LineTerminated(file.value)
    requires OneLineEach(ids)
    ensures var text := if file.Some? then file.value else "";
            Loaded(Some(text + LedgerText(ids))) == Loaded(file) + set id | id in ids
  {
    var text := if file.Some? then file.value else "";
    ReadBack(text, ids);
  }
}
