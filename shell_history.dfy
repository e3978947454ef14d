/**
 * `history_expansion`: the first parameter of a command record is a 1-based
 * index into the command history; a valid index yields the stored command
 * line and its parsed records, anything else an error message.
 */
module ShellHistory {
  import opened Wrappers
  import opened Text
  import opened ShellParse

  /** The dictionary `history_expansion` returns; `execute` is present only on success. */
  datatype Expansion = Expansion(output: Option<string>, error: Option<string>, execute: Option<seq<Command>>)

  const NoIndex: string := "No history index specified"
  const OutOfRange: string := "History index out of range"
  const InvalidIndex: string := "Invalid history index"

  /** `history_expansion(parts, cmd_history)`, given the record's parameters. */
  function HistoryExpansion(params: seq<string>, history: seq<string>): (r: Expansion)
    ensures r.output.Some? <==> r.error.None?
    ensures r.execute.Some? <==> r.output.Some?
    ensures r.output.Some? ==> r.output.value in history && r.execute.value == ParseSpec(r.output.value)
  {
    if params == [] then Expansion(None, Some(NoIndex), None)
    else
      match PyInt(params[0])
      case None => Expansion(None, Some(InvalidIndex), None)
      case Some(n) =>
        var index := n - 1;
        if 0 <= index < |history| then
          Expansion(Some(history[index]), None, Some(ParseSpec(history[index])))
        else Expansion(None, Some(OutOfRange), None)
  }

  /**
   * A first parameter that `int()` reads as k, with 1 <= k <= len(history),
   * however it is spelled (`3`, `03`, `+3`, ` 3 `, `1_0`), recalls entry k,
   * counting from 1, and parses it.
   */
  lemma ExpansionRecalls(params: seq<string>, h: seq<string>, k: int)
    requires params != [] && PyInt(params[0]) == Some(k) && 1 <= k <= |h|
    ensures HistoryExpansion(params, h) == Expansion(Some(h[k - 1]), None, Some(ParseSpec(h[k - 1])))
  {
  }

  /** In particular the index written as `str(k)`. */
  lemma ExpansionRecallsWritten(h: seq<string>, k: nat, rest: seq<string>)
    requires 1 <= k <= |h|
    ensures HistoryExpansion([NatToString(k)] + rest, h)
            == Expansion(Some(h[k - 1]), None, Some(ParseSpec(h[k - 1])))
  {
    PyIntOfNat(k);
    ExpansionRecalls([NatToString(k)] + rest, h, k);
  }

  /**
   * An index outside 1..len(history), zero and negative ones included, is
   * out of range: there is no counting from the end.
   */
  lemma ExpansionOutOfRange(h: seq<string>, i: int, rest: seq<string>)
    requires i <= 0 || i > |h|
    ensures HistoryExpansion([IntToString(i)] + rest, h) == Expansion(None, Some(OutOfRange), None)
  {
    PyIntOfInt(i);
  }

  /** Which error each failing call reports. */
  lemma ExpansionErrors(params: seq<string>, h: seq<string>)
    ensures var r := HistoryExpansion(params, h);
            (params == [] <==> r.error == Some(NoIndex))
            && (params != [] && PyInt(params[0]).None? <==> r.error == Some(InvalidIndex))
            && (params != [] && PyInt(params[0]).Some? && !(1 <= PyInt(params[0]).value <= |h|)
                <==> r.error == Some(OutOfRange))
  {
    assert NoIndex != InvalidIndex && NoIndex != OutOfRange && InvalidIndex != OutOfRange by {
      assert NoIndex[0] != InvalidIndex[0] && NoIndex[0] != OutOfRange[0];
      assert InvalidIndex[0] != OutOfRange[0];
    }
  }
}
