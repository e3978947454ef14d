/**
 * `parse_cmd`: a command line becomes one record per `|`-separated segment.
 * In each segment the first word is the command; after it, `-n` takes the
 * next word as its argument, any other `-x` sets the flags to `x`, `>`
 * takes the next word as the redirection target, and every other word is a
 * parameter.
 *
 * The loop of the source is `ParseSegment`; it is proved equal to
 * `SegmentSpec`, which first groups the words into items (`Group`) and then
 * applies the items in order (`Apply`).  The lemmas say what the record
 * holds: the parameters in input order, the last flag, the last
 * redirection.
 */
module ShellParse {
  import opened Wrappers
  import opened Text

  /** One record of `parse_cmd`'s result: the keys `input`, `cmd`, `params`, `flags` and `redirect`. */
  datatype Command = Command(input: Option<string>, cmd: Option<string>, params: seq<string>,
                             flags: Option<string>, redirect: Option<string>)

  /** The record every segment starts from. */
  const Blank: Command := Command(None, None, [], None, None)

  /** A word `parse_cmd` reads as a flag: a dash and at least one more character. */
  predicate IsFlag(t: string)
  {
    |t| > 1 && t[0] == '-'
  }

  /** The meaning of the words after the command name. */
  datatype Item = Flag(name: string) | NFlag(arg: Option<string>) | Redirect(target: Option<string>) | Param(word: string)

  /** The first item of a non-empty list of words and how many words it takes. */
  function Lead(ts: seq<string>): (r: (Item, nat))
    requires ts != []
    ensures 1 <= r.1 <= |ts|
    ensures r.0 == NFlag(None) || r.0 == Redirect(None) ==> r.1 == |ts|
  {
    if ts[0] == "-n" then
      if |ts| > 1 then (NFlag(Some(ts[1])), 2) else (NFlag(None), 1)
    else if IsFlag(ts[0]) then (Flag(ts[0][1..]), 1)
    else if ts[0] == ">" then
      if |ts| > 1 then (Redirect(Some(ts[1])), 2) else (Redirect(None), 1)
    else (Param(ts[0]), 1)
  }

  /** The words after the command name, grouped left to right; `-n` and `>` take the next word with them. */
  function Group(ts: seq<string>): seq<Item>
    decreases |ts|
  {
    if ts == [] then [] else [Lead(ts).0] + Group(ts[Lead(ts).1..])
  }

  function ApplyItem(d: Command, it: Item): Command
  {
    match it
    case Flag(x) => d.(flags := Some(x))
    case NFlag(a) => d.(flags := Some(if a.Some? then "n" + a.value else "n"))
    case Redirect(r) => d.(redirect := r)
    case Param(p) => d.(params := d.params + [p])
  }

  /** The items applied to a record from left to right. */
  function Apply(d: Command, items: seq<Item>): Command
    decreases |items|
  {
    if items == [] then d else Apply(ApplyItem(d, items[0]), items[1..])
  }

  /** The record `parse_cmd` builds from the words of one segment. */
  function SegmentSpec(parts: seq<string>): Command
  {
    if parts == [] then Blank else Apply(Blank.(cmd := Some(parts[0])), Group(parts[1..]))
  }

  /** `parse_cmd` as a function: one record per segment, each from the words of the stripped segment. */
  function ParseSpec(line: string): (r: seq<Command>)
    ensures |r| == CountChar(line, '|') + 1
  {
    var segs := SplitOn(line, '|');
    SplitCount(line, '|');
    seq(|segs|, k requires 0 <= k < |segs| => SegmentSpec(Words(Strip(segs[k]))))
  }

  /** The inner loop of `parse_cmd` for one segment's words. */
  method ParseSegment(parts: seq<string>) returns (d: Command)
    ensures d == SegmentSpec(parts)
  {
    d := Blank;
    var i := 0;
    while i < |parts|
      invariant 0 <= i <= |parts|
      invariant i == 0 ==> d == Blank
      invariant i > 0 ==> Apply(d, Group(parts[i..])) == SegmentSpec(parts)
    {
      var part := parts[i];
      if i == 0 {
        d := d.(cmd := Some(part));
        assert parts[1..] == parts[i + 1..];
      } else if |part| > 1 && part[0] == '-' {
        if part[1..] == "n" {
          assert part == "-n";
          if i + 1 < |parts| {
            assert parts[i..][2..] == parts[i + 2..];
            d := d.(flags := Some(part[1..] + parts[i + 1]));
            i := i + 1;
          } else {
            d := d.(flags := Some(part[1..]));
          }
        } else {
          assert parts[i..][1..] == parts[i + 1..];
          d := d.(flags := Some(part[1..]));
        }
      } else if part == ">" {
        if i + 1 < |parts| {
          assert parts[i..][2..] == parts[i + 2..];
          d := d.(redirect := Some(parts[i + 1]));
          i := i + 1;
        } else {
          d := d.(redirect := None);
        }
      } else {
        assert parts[i..][1..] == parts[i + 1..];
        d := d.(params := d.params + [part]);
      }
      i := i + 1;
    }
  }

  /** `parse_cmd`. */
  method ParseCmd(line: string) returns (r: seq<Command>)
    ensures r == ParseSpec(line)
  {
    var segs := SplitOn(line, '|');
    var cmds := StripAll(segs);
    ghost var spec := ParseSpec(line);
    assert |spec| == |cmds|;
    r := [];
    var k := 0;
    while k < |cmds|
      invariant 0 <= k <= |cmds| && r == spec[..k]
    {
      var d := ParseSegment(Words(cmds[k]));
      ParseSpecAt(line, k);
      assert d == spec[k];
      assert spec[..k + 1] == spec[..k] + [spec[k]];
      r := r + [d];
      k := k + 1;
    }
    assert spec[..k] == spec;
  }

  /** `[c.strip() for c in segs]`. */
  function StripAll(segs: seq<string>): (r: seq<string>)
    ensures |r| == |segs| && forall k :: 0 <= k < |segs| ==> r[k] == Strip(segs[k])
  {
    seq(|segs|, k requires 0 <= k < |segs| => Strip(segs[k]))
  }

  /** Record k of `ParseSpec` is the record of segment k, stripped and split into words. */
  lemma ParseSpecAt(line: string, k: nat)
    requires k < |SplitOn(line, '|')|
    ensures |ParseSpec(line)| == |SplitOn(line, '|')|
    ensures ParseSpec(line)[k] == SegmentSpec(Words(StripAll(SplitOn(line, '|'))[k]))
  {
  }

  // ---------------------------------------------------------------------
  // What a record holds

  /** The parameter words among the items, in order. */
  function ParamsOf(items: seq<Item>): seq<string>
  {
    if items == [] then []
    else (if items[0].Param? then [items[0].word] else []) + ParamsOf(items[1..])
  }

  /** The flags value the rightmost flag item sets, or `dflt` when there is none. */
  function LastFlag(items: seq<Item>, dflt: Option<string>): Option<string>
  {
    if items == [] then dflt
    else
      var it := items[|items| - 1];
      match it
      case Flag(x) => Some(x)
      case NFlag(a) => Some(if a.Some? then "n" + a.value else "n")
      case _ => LastFlag(items[..|items| - 1], dflt)
  }

  /** The target the rightmost redirection item sets, or `dflt` when there is none. */
  function LastRedirect(items: seq<Item>, dflt: Option<string>): Option<string>
  {
    if items == [] then dflt
    else if items[|items| - 1].Redirect? then items[|items| - 1].target
    else LastRedirect(items[..|items| - 1], dflt)
  }

  lemma {:induction false} ParamsOfAppend(a: seq<Item>, b: seq<Item>)
    ensures ParamsOf(a + b) == ParamsOf(a) + ParamsOf(b)
  {
    if a == [] {
      assert a + b == b;
    } else {
      assert (a + b)[0] == a[0] && (a + b)[1..] == a[1..] + b;
      ParamsOfAppend(a[1..], b);
    }
  }

  /** Applying one more item at the end. */
  lemma {:induction false} ApplySnoc(d: Command, items: seq<Item>, it: Item)
    ensures Apply(d, items + [it]) == ApplyItem(Apply(d, items), it)
    decreases |items|
  {
    if items != [] {
      assert (items + [it])[1..] == items[1..] + [it];
      ApplySnoc(ApplyItem(d, items[0]), items[1..], it);
    }
  }

  /**
   * Applying items keeps the command name and input, appends the
   * parameters in order, and leaves the last flag and the last redirection
   * that appear among them.
   */
  lemma {:induction false} ApplyMeaning(d: Command, items: seq<Item>)
    ensures Apply(d, items) == d.(params := d.params + ParamsOf(items),
                                  flags := LastFlag(items, d.flags),
                                  redirect := LastRedirect(items, d.redirect))
  {
    if items != [] {
      var front, it := items[..|items| - 1], items[|items| - 1];
      assert items == front + [it];
      ApplyMeaning(d, front);
      ApplySnoc(d, front, it);
      ParamsOfAppend(front, [it]);
    }
  }

  /** `a` is `b` with some elements left out, the rest in order. */
  predicate IsSubseq(a: seq<string>, b: seq<string>)
    decreases |b|
  {
    if b == [] then a == []
    else (a != [] && a[0] == b[0] && IsSubseq(a[1..], b[1..])) || IsSubseq(a, b[1..])
  }

  lemma SubseqSkip(a: seq<string>, b: seq<string>, x: string)
    requires IsSubseq(a, b)
    ensures IsSubseq(a, [x] + b)
  {
    assert ([x] + b)[1..] == b;
  }

  lemma SubseqKeep(a: seq<string>, b: seq<string>, x: string)
    requires IsSubseq(a, b)
    ensures IsSubseq([x] + a, [x] + b)
  {
    assert ([x] + a)[1..] == a && ([x] + b)[1..] == b;
  }

  /**
   * The parameters are some of the words, in input order; none of them is a
   * flag or a `>`.
   */
  lemma {:induction false} GroupParams(ts: seq<string>)
    ensures IsSubseq(ParamsOf(Group(ts)), ts)
    ensures forall p :: p in ParamsOf(Group(ts)) ==> !IsFlag(p) && p != ">"
    decreases |ts|
  {
    if ts != [] {
      var g := Group(ts);
      if ts[0] == "-n" || ts[0] == ">" {
        if |ts| > 1 {
          GroupParams(ts[2..]);
          assert ParamsOf(g) == ParamsOf(Group(ts[2..]));
          SubseqSkip(ParamsOf(g), ts[2..], ts[1]);
          assert [ts[1]] + ts[2..] == ts[1..];
          SubseqSkip(ParamsOf(g), ts[1..], ts[0]);
        } else {
          assert ParamsOf(g) == [];
        }
      } else {
        GroupParams(ts[1..]);
        var rest := ParamsOf(Group(ts[1..]));
        if IsFlag(ts[0]) {
          assert ParamsOf(g) == rest;
          SubseqSkip(rest, ts[1..], ts[0]);
        } else {
          assert ParamsOf(g) == [ts[0]] + rest;
          SubseqKeep(rest, ts[1..], ts[0]);
        }
      }
      assert [ts[0]] + ts[1..] == ts;
    }
  }

  /** Words that are neither flags nor `>` are all parameters, in order, and set nothing else. */
  lemma {:induction false} GroupPlain(ts: seq<string>)
    requires forall t :: t in ts ==> !IsFlag(t) && t != ">"
    ensures ParamsOf(Group(ts)) == ts
    ensures forall d: Option<string> :: LastFlag(Group(ts), d) == d && LastRedirect(Group(ts), d) == d
    decreases |ts|
  {
    if ts != [] {
      assert ts[0] in ts;
      assert ts[0] != "-n";
      GroupPlain(ts[1..]);
      var g := Group(ts);
      assert g == [Param(ts[0])] + Group(ts[1..]);
      forall d: Option<string> ensures LastFlag(g, d) == d && LastRedirect(g, d) == d {
        LastOfPrefixParam(Group(ts[1..]), ts[0], d);
      }
    }
  }

  /** A parameter item in front changes neither the last flag nor the last redirection. */
  lemma {:induction false} LastOfPrefixParam(items: seq<Item>, p: string, d: Option<string>)
    ensures LastFlag([Param(p)] + items, d) == LastFlag(items, d)
    ensures LastRedirect([Param(p)] + items, d) == LastRedirect(items, d)
    decreases |items|
  {
    var all := [Param(p)] + items;
    if items != [] {
      assert all[..|all| - 1] == [Param(p)] + items[..|items| - 1];
      LastOfPrefixParam(items[..|items| - 1], p, d);
    } else {
      assert all[..|all| - 1] == [];
    }
  }

  /** A segment of plain words: the command name, then every other word as a parameter. */
  lemma SegmentPlain(parts: seq<string>)
    requires parts != []
    requires forall t :: t in parts[1..] ==> !IsFlag(t) && t != ">"
    ensures SegmentSpec(parts) == Blank.(cmd := Some(parts[0]), params := parts[1..])
  {
    GroupPlain(parts[1..]);
    ApplyMeaning(Blank.(cmd := Some(parts[0])), Group(parts[1..]));
  }

  /** Words whose grouping leaves no `-n` or `>` dangling at the end: later words are grouped on their own. */
  predicate Closed(ts: seq<string>)
    decreases |ts|
  {
    ts == [] || (Lead(ts).0 != NFlag(None) && Lead(ts).0 != Redirect(None) && Closed(ts[Lead(ts).1..]))
  }

  lemma {:induction false} GroupAppend(ts: seq<string>, us: seq<string>)
    requires Closed(ts)
    ensures Group(ts + us) == Group(ts) + Group(us)
    decreases |ts|
  {
    if ts == [] {
      assert ts + us == us;
    } else {
      GroupAppendHead(ts, us);
      GroupAppend(ts[Lead(ts).1..], us);
    }
  }

  /** The first item of a closed list of words is also the first item once more words follow. */
  lemma GroupAppendHead(ts: seq<string>, us: seq<string>)
    requires ts != [] && Lead(ts).0 != NFlag(None) && Lead(ts).0 != Redirect(None)
    ensures Group(ts + us) == [Lead(ts).0] + Group(ts[Lead(ts).1..] + us)
    ensures Group(ts) == [Lead(ts).0] + Group(ts[Lead(ts).1..])
  {
    LeadAppend(ts, us);
    assert (ts + us)[Lead(ts).1..] == ts[Lead(ts).1..] + us;
  }

  /** A first item that is not left dangling is the same with more words after it. */
  lemma LeadAppend(ts: seq<string>, us: seq<string>)
    requires ts != [] && Lead(ts).0 != NFlag(None) && Lead(ts).0 != Redirect(None)
    ensures Lead(ts + us) == Lead(ts)
  {
    assert (ts + us)[0] == ts[0];
    if |ts| > 1 {
      assert (ts + us)[1] == ts[1];
    }
  }

  /** The flag word written last in a segment decides the flags: `-x` gives `x`, a trailing `-n` gives `n`. */
  lemma FlagLastWins(parts: seq<string>, x: string)
    requires parts != [] && Closed(parts[1..]) && x != []
    ensures SegmentSpec(parts + ["-" + x]).flags == Some(x)
  {
    var ts := parts[1..];
    assert (parts + ["-" + x])[1..] == ts + ["-" + x];
    GroupAppend(ts, ["-" + x]);
    var g := Group(ts) + Group(["-" + x]);
    ApplyMeaning(Blank.(cmd := Some(parts[0])), g);
    if x == "n" {
      assert "-" + x == "-n";
    } else {
      assert "-" + x != "-n";
      assert ("-" + x)[1..] == x;
    }
  }

  /**
   * A word that is neither a flag nor `>`, written after a closed segment,
   * is appended to the parameters and changes nothing else.
   */
  lemma ParamAppends(parts: seq<string>, w: string)
    requires parts != [] && Closed(parts[1..]) && !IsFlag(w) && w != ">"
    ensures SegmentSpec(parts + [w]) == SegmentSpec(parts).(params := SegmentSpec(parts).params + [w])
  {
    var ts := parts[1..];
    assert (parts + [w])[1..] == ts + [w];
    GroupAppend(ts, [w]);
    assert w != "-n";
    assert Group([w]) == [Param(w)];
    var d := Blank.(cmd := Some(parts[0]));
    ApplySnoc(d, Group(ts), Param(w));
  }

  /** `-n` followed by a word: the flags are `n` and that word. */
  lemma NFlagTakesWord(parts: seq<string>, v: string)
    requires parts != [] && Closed(parts[1..])
    ensures SegmentSpec(parts + ["-n", v]).flags == Some("n" + v)
    ensures SegmentSpec(parts + ["-n", v]).params == SegmentSpec(parts).params
  {
    var ts := parts[1..];
    assert (parts + ["-n", v])[1..] == ts + ["-n", v];
    GroupAppend(ts, ["-n", v]);
    assert Group(["-n", v]) == [NFlag(Some(v))];
    var d := Blank.(cmd := Some(parts[0]));
    ApplyMeaning(d, Group(ts) + [NFlag(Some(v))]);
    ApplyMeaning(d, Group(ts));
    ParamsOfAppend(Group(ts), [NFlag(Some(v))]);
  }

  /** `>` followed by a word redirects to it; a trailing `>` leaves no redirection and adds no parameter. */
  lemma RedirectTarget(parts: seq<string>, f: string)
    requires parts != [] && Closed(parts[1..])
    ensures SegmentSpec(parts + [">", f]).redirect == Some(f)
    ensures SegmentSpec(parts + [">"]).redirect == None
    ensures SegmentSpec(parts + [">"]).params == SegmentSpec(parts).params
  {
    var ts := parts[1..];
    var d := Blank.(cmd := Some(parts[0]));
    assert (parts + [">", f])[1..] == ts + [">", f];
    assert (parts + [">"])[1..] == ts + [">"];
    GroupAppend(ts, [">", f]);
    GroupAppend(ts, [">"]);
    assert Group([">", f]) == [Redirect(Some(f))];
    assert Group([">"]) == [Redirect(None)];
    ApplyMeaning(d, Group(ts) + [Redirect(Some(f))]);
    ApplyMeaning(d, Group(ts) + [Redirect(None)]);
    ApplyMeaning(d, Group(ts));
    ParamsOfAppend(Group(ts), [Redirect(None)]);
  }

  /** Each record's command is the first word of its segment; an empty segment gives the blank record. */
  lemma ParseSegments(line: string, k: nat)
    requires k < |ParseSpec(line)|
    ensures var ws := Words(Strip(SplitOn(line, '|')[k]));
            var r := ParseSpec(line)[k];
            r.input == None && (ws == [] ==> r == Blank) && (ws != [] ==> r.cmd == Some(ws[0]))
  {
    var ws := Words(Strip(SplitOn(line, '|')[k]));
    if ws != [] {
      ApplyMeaning(Blank.(cmd := Some(ws[0])), Group(ws[1..]));
    }
  }
}
