/**
 * `get_counts`, the counting core of `wc`: the number of words (`split()`),
 * lines (`splitlines()`) and characters of a text.  Without flags it gives
 * the word count alone; with flags it gives, separated by single blanks and
 * always in the order words, lines, characters, the counts whose letter
 * (`w`, `l`, `c`) occurs anywhere in the flags.
 */
module ShellCount {
  import opened Wrappers
  import opened Text

  /** The counts the flags select, in the order words, lines, characters. */
  function Selected(text: string, f: string): (ns: seq<nat>)
    ensures |ns| == (if 'w' in f then 1 else 0) + (if 'l' in f then 1 else 0) + (if 'c' in f then 1 else 0)
    ensures 'w' in f ==> ns[0] == |Words(text)|
    ensures 'l' in f ==> ns[if 'w' in f then 1 else 0] == |SplitLines(text)|
    ensures 'c' in f ==> ns[|ns| - 1] == |text|
  {
    (if 'w' in f then [|Words(text)|] else [])
    + (if 'l' in f then [|SplitLines(text)|] else [])
    + (if 'c' in f then [|text|] else [])
  }

  function Render(ns: seq<nat>): (r: seq<string>)
    ensures |r| == |ns| && forall k :: 0 <= k < |ns| ==> r[k] == NatToString(ns[k])
  {
    seq(|ns|, k requires 0 <= k < |ns| => NatToString(ns[k]))
  }

  /** `get_counts(text, flags)`; absent and empty flags are alike. */
  function GetCounts(text: string, flags: Option<string>): string
  {
    if flags.None? || flags.value == [] then NatToString(|Words(text)|)
    else JoinWith(Render(Selected(text, flags.value)), ' ')
  }

  /** Without flags the result reads back as the number of words. */
  lemma NoFlagsCountWords(text: string, flags: Option<string>)
    requires flags.None? || flags.value == []
    ensures PyInt(GetCounts(text, flags)) == Some(|Words(text)|)
  {
    PyIntOfNat(|Words(text)|);
  }

  /**
   * With flags the result splits at its blanks into the selected counts, in
   * the order words, lines, characters, each read back by `int()`; flags
   * with none of the three letters give the empty string.
   */
  lemma CountsReadBack(text: string, f: string)
    requires f != []
    ensures var out := GetCounts(text, Some(f));
            var ns := Selected(text, f);
            (ns == [] ==> out == "")
            && (ns != [] ==> |SplitOn(out, ' ')| == |ns|
                             && forall k :: 0 <= k < |ns| ==> PyInt(SplitOn(out, ' ')[k]) == Some(ns[k] as int))
  {
    var ns := Selected(text, f);
    var parts := Render(ns);
    if ns != [] {
      forall k | 0 <= k < |parts| ensures ' ' !in parts[k] {
        assert AllDigits(parts[k]);
      }
      SplitJoin(parts, ' ');
      forall k | 0 <= k < |ns| ensures PyInt(parts[k]) == Some(ns[k] as int) {
        PyIntOfNat(ns[k]);
      }
    }
  }

  /** Only which of `w`, `l`, `c` occur in the flags matters, not their order or anything else in them. */
  lemma FlagsBySet(text: string, f: string, g: string)
    requires f != [] && g != []
    requires ('w' in f <==> 'w' in g) && ('l' in f <==> 'l' in g) && ('c' in f <==> 'c' in g)
    ensures GetCounts(text, Some(f)) == GetCounts(text, Some(g))
  {
  }

  /** Every word has at least one character, so there are never more words than characters. */
  lemma {:induction false} WordsAtMostChars(s: string)
    ensures |Words(s)| <= |s|
    decreases |s|
  {
    if s != [] {
      if IsSpace(s[0]) {
        WordsAtMostChars(s[1..]);
      } else {
        var j := WordEnd(s, 0);
        assert j >= 1;
        WordsAtMostChars(s[j..]);
      }
    }
  }

  /** Every line takes at least one character, its own or its line break, so there are never more lines than characters. */
  lemma {:induction false} LinesAtMostChars(s: string)
    ensures |SplitLines(s)| <= |s|
    decreases |s|
  {
    if s != [] {
      var j := LineEnd(s, 0);
      if j < |s| {
        var next := if s[j] == '\r' && j + 1 < |s| && s[j + 1] == '\n' then j + 2 else j + 1;
        LinesAtMostChars(s[next..]);
      }
    }
  }

  /** A text without a line break is one line, or none when it is empty. */
  lemma OneLine(s: string)
    requires forall k :: 0 <= k < |s| ==> !IsLineBreak(s[k])
    ensures |SplitLines(s)| == (if s == [] then 0 else 1)
  {
  }
}
