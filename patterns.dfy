/**
 * The three regular expressions that pick measurements out of ping's output:
 *
 *   response:  icmp_seq=(\d+) ttl=(\d+) time=(\d+(\.\d+|)) ms
 *   summary:   (\d+) packets transmitted, (\d+) received, (\+(\d+) errors, |)(\d+)% packet loss, time (\d+(\.\d+|))ms
 *   rtt:       rtt min/avg/max/mdev = (D)/(D)/(D)/(D) ms        where D is \d+(\.\d+|)
 *
 * A pattern is written as a list of items: a literal, \d+ (Int) or
 * \d+(\.\d+|) (Dec). MatchItems tries a list at the start of a text and
 * returns what each item captured together with the text that follows the
 * match. Every Int and Dec in these patterns is followed by a literal that
 * starts with neither a digit nor a point (WellFormed), so the longest run
 * of digits is the only one that can lead to a match, and the alternative
 * (\.\d+) can only be followed by the rest of the pattern when the point
 * and digits are really there: taking them locally, without backtracking,
 * gives what the regular-expression engine gives. The alternation
 * (\+(\d+) errors, |) of the summary is tried as two whole patterns, the
 * first alternative first.
 *
 * MatchComplete and MatchSound state what a match is, independently of how
 * MatchItems finds it: MatchItems captures c from a text exactly when the
 * text starts with what the pattern spells with c. re.search is the
 * leftmost start position at which the pattern matches (Search).
 */
module Patterns {
  import opened Wrappers
  import opened Text

  // ---------------------------------------------------------------------------
  // Patterns and captures
  // ---------------------------------------------------------------------------

  /** The text \d+(\.\d+|) captures: the whole part and the fraction digits ("" without a point). */
  datatype Numeral = Numeral(whole: string, frac: string)

  /** What \d+ can capture. */
  predicate IsNumber(s: string) { |s| > 0 && IsDigits(s) }

  predicate NumeralOk(n: Numeral) { IsNumber(n.whole) && IsDigits(n.frac) }

  function NumeralSpelling(n: Numeral): string
  {
    if n.frac == [] then n.whole else n.whole + ("." + n.frac)
  }

  datatype Item = Lit(text: string) | Int | Dec

  datatype Capture = Skip | IntText(digits: string) | DecText(numeral: Numeral)

  /** Text that can follow a number without extending it: empty, or starting with neither a digit nor a point. */
  predicate Delimits(s: string) { s == [] || (!IsDigit(s[0]) && s[0] != '.') }

  /** Every number in the pattern is followed by a literal that delimits it. */
  predicate WellFormed(p: seq<Item>)
  {
    p == [] ||
    ((p[0].Lit? || (|p| > 1 && p[1].Lit? && p[1].text != [] && Delimits(p[1].text))) && WellFormed(p[1..]))
  }

  predicate ItemFits(item: Item, c: Capture)
  {
    match item
    case Lit(_) => c.Skip?
    case Int => c.IntText? && IsNumber(c.digits)
    case Dec => c.DecText? && NumeralOk(c.numeral)
  }

  /** caps holds one well-formed capture per item of p. */
  predicate Fits(p: seq<Item>, caps: seq<Capture>)
  {
    |caps| == |p| && forall k :: 0 <= k < |p| ==> ItemFits(p[k], caps[k])
  }

  function ItemSpelling(item: Item, c: Capture): string
    requires ItemFits(item, c)
  {
    match item
    case Lit(s) => s
    case Int => c.digits
    case Dec => NumeralSpelling(c.numeral)
  }

  /** The text that pattern p matches when its items capture caps. */
  function Spelling(p: seq<Item>, caps: seq<Capture>): string
    requires Fits(p, caps)
  {
    if p == [] then [] else ItemSpelling(p[0], caps[0]) + Spelling(p[1..], caps[1..])
  }

  // ---------------------------------------------------------------------------
  // Matching at the start of a text
  // ---------------------------------------------------------------------------

  /** The longest run of digits that s starts with. */
  function LeadingDigits(s: string): (d: string)
    ensures d <= s && IsDigits(d) && (|d| == |s| || !IsDigit(s[|d|]))
  {
    if s != [] && IsDigit(s[0]) then
      var d := [s[0]] + LeadingDigits(s[1..]);
      assert s == [s[0]] + s[1..];
      d
    else []
  }

  /** \d+(\.\d+|) at the start of s: the fraction is taken when a point and digits follow the whole part. */
  function MatchNumeral(s: string): (r: Option<(Numeral, string)>)
    ensures r.Some? ==> NumeralOk(r.value.0) && s == NumeralSpelling(r.value.0) + r.value.1
  {
    var w := LeadingDigits(s);
    if w == [] then None
    else
      var after := s[|w|..];
      assert s == w + after;
      if after != [] && after[0] == '.' && LeadingDigits(after[1..]) != [] then
        var tail := after[1..];
        var f := LeadingDigits(tail);
        var rest := tail[|f|..];
        assert tail == f + rest;
        assert after == "." + tail;
        assert s == w + ("." + f) + rest;
        Some((Numeral(w, f), rest))
      else Some((Numeral(w, []), after))
  }

  /** One item at the start of s: its capture and the text after it. */
  function MatchItem(item: Item, s: string): (r: Option<(Capture, string)>)
    ensures r.Some? ==> ItemFits(item, r.value.0) && s == ItemSpelling(item, r.value.0) + r.value.1
  {
    match item
    case Lit(t) =>
      if t <= s then
        assert s == t + s[|t|..];
        Some((Skip, s[|t|..]))
      else None
    case Int =>
      var d := LeadingDigits(s);
      if d == [] then None
      else
        assert s == d + s[|d|..];
        Some((IntText(d), s[|d|..]))
    case Dec => (match MatchNumeral(s) case None => None case Some((n, rest)) => Some((DecText(n), rest)))
  }

  /** Pattern p at the start of s: the captures and the text after the match. */
  function MatchItems(p: seq<Item>, s: string): (r: Option<(seq<Capture>, string)>)
    ensures r.Some? ==> Fits(p, r.value.0)
  {
    if p == [] then Some(([], s))
    else
      match MatchItem(p[0], s)
      case None => None
      case Some((c, rest)) =>
        match MatchItems(p[1..], rest)
        case None => None
        case Some((cs, rest')) => Some(([c] + cs, rest'))
  }

  // ---------------------------------------------------------------------------
  // re.search: the leftmost position at which the pattern matches
  // ---------------------------------------------------------------------------

  function SearchFrom<T>(matchAt: (string, nat) -> Option<T>, line: string, i: nat): Option<T>
    decreases |line| + 1 - i
  {
    if i > |line| then None
    else if matchAt(line, i).Some? then matchAt(line, i)
    else SearchFrom(matchAt, line, i + 1)
  }

  function Search<T>(matchAt: (string, nat) -> Option<T>, line: string): Option<T>
  {
    SearchFrom(matchAt, line, 0)
  }

  /** The search fails exactly when the pattern matches at no start position. */
  lemma {:induction false} SearchNone<T>(matchAt: (string, nat) -> Option<T>, line: string)
    ensures Search(matchAt, line).None? <==> forall i :: 0 <= i <= |line| ==> matchAt(line, i).None?
  {
    SearchFromNone(matchAt, line, 0);
  }

  lemma {:induction false} SearchFromNone<T>(matchAt: (string, nat) -> Option<T>, line: string, i: nat)
    ensures SearchFrom(matchAt, line, i).None? <==> forall k :: i <= k <= |line| ==> matchAt(line, k).None?
    decreases |line| + 1 - i
  {
    if i <= |line| {
      SearchFromNone(matchAt, line, i + 1);
    }
  }

  /** When i is the first position at which the pattern matches, the search returns that match. */
  lemma {:induction false} SearchLeftmost<T>(matchAt: (string, nat) -> Option<T>, line: string, i: nat)
    requires i <= |line| && matchAt(line, i).Some?
    requires forall k :: 0 <= k < i ==> matchAt(line, k).None?
    ensures Search(matchAt, line) == matchAt(line, i)
  {
    SearchFromLeftmost(matchAt, line, 0, i);
  }

  lemma {:induction false} SearchFromLeftmost<T>(matchAt: (string, nat) -> Option<T>, line: string, from: nat, i: nat)
    requires from <= i <= |line| && matchAt(line, i).Some?
    requires forall k :: from <= k < i ==> matchAt(line, k).None?
    ensures SearchFrom(matchAt, line, from) == matchAt(line, i)
    decreases i - from
  {
    if from < i {
      SearchFromLeftmost(matchAt, line, from + 1, i);
    }
  }

  /** A successful search is the match at some position, with no match before it. */
  lemma {:induction false} SearchSome<T>(matchAt: (string, nat) -> Option<T>, line: string)
    requires Search(matchAt, line).Some?
    ensures exists i :: 0 <= i <= |line| && matchAt(line, i) == Search(matchAt, line) &&
                        forall k :: 0 <= k < i ==> matchAt(line, k).None?
  {
    var i := SearchFromSome(matchAt, line, 0);
  }

  lemma {:induction false} SearchFromSome<T>(matchAt: (string, nat) -> Option<T>, line: string, from: nat)
    returns (i: nat)
    requires SearchFrom(matchAt, line, from).Some?
    ensures from <= i <= |line| && matchAt(line, i) == SearchFrom(matchAt, line, from)
    ensures forall k :: from <= k < i ==> matchAt(line, k).None?
    decreases |line| + 1 - from
  {
    if matchAt(line, from).Some? {
      i := from;
    } else {
      i := SearchFromSome(matchAt, line, from + 1);
    }
  }

  // ---------------------------------------------------------------------------
  // What a match is
  // ---------------------------------------------------------------------------

  /** A run of digits followed by text that does not start with a digit is exactly the leading run. */
  lemma {:induction false} LeadingDigitsOf(d: string, t: string)
    requires IsDigits(d) && (t == [] || !IsDigit(t[0]))
    ensures LeadingDigits(d + t) == d
    decreases |d|
  {
    if d != [] {
      assert (d + t)[0] == d[0] && (d + t)[1..] == d[1..] + t;
      LeadingDigitsOf(d[1..], t);
      assert [d[0]] + d[1..] == d;
    } else {
      assert d + t == t;
    }
  }

  /** \d+(\.\d+|) captures the whole numeral when text that delimits it follows. */
  lemma {:induction false} NumeralComplete(n: Numeral, rest: string)
    requires NumeralOk(n) && Delimits(rest)
    ensures MatchNumeral(NumeralSpelling(n) + rest) == Some((n, rest))
  {
    var s := NumeralSpelling(n) + rest;
    if n.frac == [] {
      LeadingDigitsOf(n.whole, rest);
      assert s[|n.whole|..] == rest;
    } else {
      var after := "." + (n.frac + rest);
      assert s == n.whole + after;
      LeadingDigitsOf(n.whole, after);
      assert s[|n.whole|..] == after && after[1..] == n.frac + rest;
      LeadingDigitsOf(n.frac, rest);
      assert after[1..][|n.frac|..] == rest;
    }
  }

  /** A number item captures its spelling when text that delimits it follows. */
  lemma {:induction false} ItemComplete(item: Item, c: Capture, rest: string)
    requires ItemFits(item, c) && !item.Lit? && Delimits(rest)
    ensures MatchItem(item, ItemSpelling(item, c) + rest) == Some((c, rest))
  {
    if item.Int? {
      LeadingDigitsOf(c.digits, rest);
      assert (c.digits + rest)[|c.digits|..] == rest;
    } else {
      NumeralComplete(c.numeral, rest);
    }
  }

  /** A literal item matches a text that starts with it. */
  lemma {:induction false} LitComplete(t: string, rest: string)
    ensures MatchItem(Lit(t), t + rest) == Some((Skip, rest))
  {
    assert t <= t + rest;
    assert (t + rest)[|t|..] == rest;
  }

  /** The spelling of a pattern is its first item's spelling followed by the rest. */
  lemma {:induction false} SpellingCons(p: seq<Item>, caps: seq<Capture>)
    requires Fits(p, caps) && p != []
    ensures Fits(p[1..], caps[1..]) && ItemFits(p[0], caps[0])
    ensures Spelling(p, caps) == ItemSpelling(p[0], caps[0]) + Spelling(p[1..], caps[1..])
  {
    assert ItemFits(p[0], caps[0]);
    forall k | 0 <= k < |p[1..]| ensures ItemFits(p[1..][k], caps[1..][k]) {
      assert ItemFits(p[k + 1], caps[k + 1]);
    }
  }

  /** In a well-formed pattern, what follows a number is spelled from a literal that delimits it. */
  lemma {:induction false} NextLiteral(p: seq<Item>, caps: seq<Capture>, rest: string)
    requires WellFormed(p) && Fits(p, caps) && p != [] && !p[0].Lit?
    ensures Fits(p[1..], caps[1..])
    ensures Delimits(Spelling(p[1..], caps[1..]) + rest)
  {
    SpellingCons(p, caps);
    SpellingCons(p[1..], caps[1..]);
    var t := p[1].text;
    var tail := Spelling(p[1..], caps[1..]) + rest;
    assert tail == t + (Spelling(p[1..][1..], caps[1..][1..]) + rest);
    assert tail[0] == t[0];
  }

  /**
   * Completeness: whenever a text starts with what a well-formed pattern
   * spells with some captures, the pattern matches there, captures exactly
   * those, and leaves the rest of the text.
   */
  lemma {:induction false} MatchComplete(p: seq<Item>, caps: seq<Capture>, rest: string)
    requires WellFormed(p) && Fits(p, caps)
    ensures MatchItems(p, Spelling(p, caps) + rest) == Some((caps, rest))
    decreases |p|
  {
    if p != [] {
      SpellingCons(p, caps);
      var tail := Spelling(p[1..], caps[1..]) + rest;
      var s := Spelling(p, caps) + rest;
      assert s == ItemSpelling(p[0], caps[0]) + tail;
      if p[0].Lit? {
        LitComplete(p[0].text, tail);
      } else {
        NextLiteral(p, caps, rest);
        ItemComplete(p[0], caps[0], tail);
      }
      assert MatchItem(p[0], s) == Some((caps[0], tail));
      MatchComplete(p[1..], caps[1..], rest);
      assert MatchItems(p[1..], tail) == Some((caps[1..], rest));
      assert [caps[0]] + caps[1..] == caps;
      assert MatchItems(p, s) == Some(([caps[0]] + caps[1..], rest));
    } else {
      assert [] + rest == rest;
    }
  }

  /** Soundness: when a pattern matches, the text starts with what it spells with its captures. */
  lemma {:induction false} MatchSound(p: seq<Item>, s: string)
    requires MatchItems(p, s).Some?
    ensures var (caps, rest) := MatchItems(p, s).value;
            s == Spelling(p, caps) + rest
    decreases |p|
  {
    if p != [] {
      var m := MatchItem(p[0], s).value;
      var m' := MatchItems(p[1..], m.1).value;
      assert MatchItems(p, s).value == ([m.0] + m'.0, m'.1);
      MatchSound(p[1..], m.1);
      SpellingStep(p, m.0, m'.0, s, m.1, m'.1);
    }
  }

  lemma {:induction false} SpellingStep(p: seq<Item>, c: Capture, cs: seq<Capture>, s: string, after: string, rest: string)
    requires p != [] && ItemFits(p[0], c) && Fits(p[1..], cs)
    requires s == ItemSpelling(p[0], c) + after && after == Spelling(p[1..], cs) + rest
    ensures Fits(p, [c] + cs) && s == Spelling(p, [c] + cs) + rest
  {
    var caps := [c] + cs;
    assert caps[0] == c && caps[1..] == cs;
    forall k | 0 <= k < |p| ensures ItemFits(p[k], caps[k]) {
      if k > 0 {
        assert ItemFits(p[1..][k - 1], cs[k - 1]);
      }
    }
  }

  /** Matching a pattern made of two parts matches the first part, then the second on what the first left. */
  lemma {:induction false} MatchAppend(p: seq<Item>, q: seq<Item>, s: string)
    ensures MatchItems(p + q, s) ==
            match MatchItems(p, s)
            case None => None
            case Some((c1, after)) =>
              match MatchItems(q, after)
              case None => None
              case Some((c2, rest)) => Some((c1 + c2, rest))
    decreases |p|
  {
    if p == [] {
      assert p + q == q;
      match MatchItems(q, s)
      case None =>
      case Some((c2, rest)) =>
        assert [] + c2 == c2;
    } else {
      assert (p + q)[0] == p[0] && (p + q)[1..] == p[1..] + q;
      match MatchItem(p[0], s)
      case None =>
      case Some((c, after)) =>
        MatchAppend(p[1..], q, after);
        match MatchItems(p[1..], after)
        case None =>
        case Some((cs, after')) =>
          match MatchItems(q, after')
          case None =>
          case Some((c2, rest)) =>
            assert [c] + (cs + c2) == [c] + cs + c2;
    }
  }

  // ---------------------------------------------------------------------------
  // The three patterns of ping's output
  // ---------------------------------------------------------------------------

  const ResponsePattern: seq<Item> :=
    [Lit("icmp_seq="), Int, Lit(" ttl="), Int, Lit(" time="), Dec, Lit(" ms")]

  const SummaryHead: seq<Item> := [Int, Lit(" packets transmitted, "), Int, Lit(" received, ")]
  const SummaryTail: seq<Item> := [Int, Lit("% packet loss, time "), Dec, Lit("ms")]

  /** The summary pattern with the first alternative of its errors group, and with the empty one. */
  const SummaryWithErrors: seq<Item> :=
    [Int, Lit(" packets transmitted, "), Int, Lit(" received, "),
     Lit("+"), Int, Lit(" errors, "),
     Int, Lit("% packet loss, time "), Dec, Lit("ms")]
  const SummaryPlain: seq<Item> :=
    [Int, Lit(" packets transmitted, "), Int, Lit(" received, "),
     Int, Lit("% packet loss, time "), Dec, Lit("ms")]

  const RttPattern: seq<Item> :=
    [Lit("rtt min/avg/max/mdev = "), Dec, Lit("/"), Dec, Lit("/"), Dec, Lit("/"), Dec, Lit(" ms")]

  /** Item k of p is a literal, or a number that a delimiting literal follows. */
  predicate Delimited(p: seq<Item>, k: nat)
    requires k < |p|
  {
    p[k].Lit? || (k + 1 < |p| && p[k + 1].Lit? && p[k + 1].text != [] && Delimits(p[k + 1].text))
  }

  /** A pattern is well formed when each of its suffixes, taken from the end, is. */
  lemma {:induction false} WellFormedFromEnd(p: seq<Item>, i: nat)
    requires i <= |p| && WellFormed(p[i..])
    requires forall k :: 0 <= k < i ==> Delimited(p, k)
    ensures WellFormed(p)
    decreases i
  {
    if i > 0 {
      var k := i - 1;
      var q := p[k..];
      assert Delimited(p, k);
      assert |q| == |p| - k && q[0] == p[k] && q[1..] == p[i..];
      if k + 1 < |p| {
        assert q[1] == p[k + 1];
      }
      assert WellFormed(q);
      WellFormedFromEnd(p, k);
    } else {
      assert p[0..] == p;
    }
  }

  lemma ResponsePatternWellFormed() ensures WellFormed(ResponsePattern) {}
  lemma SummaryWithErrorsWellFormed() ensures WellFormed(SummaryWithErrors)
  {
    var p := SummaryWithErrors;
    assert p[|p|..] == [];
    WellFormedFromEnd(p, |p|);
  }
  lemma SummaryPlainWellFormed() ensures WellFormed(SummaryPlain)
  {
    var p := SummaryPlain;
    assert p[|p|..] == [];
    WellFormedFromEnd(p, |p|);
  }
  lemma RttPatternWellFormed() ensures WellFormed(RttPattern) {}

  datatype ResponseGroups = ResponseGroups(icmpSeq: string, ttl: string, time: Numeral)

  datatype SummaryGroups = SummaryGroups(
    transmitted: string, received: string, errors: Option<string>, packetLoss: string, time: Numeral)

  datatype RttGroups = RttGroups(min: Numeral, avg: Numeral, max: Numeral, mdev: Numeral)

  function ResponseCaptures(g: ResponseGroups): seq<Capture>
  {
    [Skip, IntText(g.icmpSeq), Skip, IntText(g.ttl), Skip, DecText(g.time), Skip]
  }

  function SummaryPattern(g: SummaryGroups): seq<Item>
  {
    if g.errors.Some? then SummaryWithErrors else SummaryPlain
  }

  function SummaryCaptures(g: SummaryGroups): seq<Capture>
  {
    if g.errors.Some? then
      [IntText(g.transmitted), Skip, IntText(g.received), Skip,
       Skip, IntText(g.errors.value), Skip,
       IntText(g.packetLoss), Skip, DecText(g.time), Skip]
    else
      [IntText(g.transmitted), Skip, IntText(g.received), Skip,
       IntText(g.packetLoss), Skip, DecText(g.time), Skip]
  }

  function RttCaptures(g: RttGroups): seq<Capture>
  {
    [Skip, DecText(g.min), Skip, DecText(g.avg), Skip, DecText(g.max), Skip, DecText(g.mdev), Skip]
  }

  /** response_re at the start of s. */
  function MatchResponse(s: string): Option<ResponseGroups>
  {
    match MatchItems(ResponsePattern, s)
    case None => None
    case Some((c, _)) => Some(ResponseGroups(c[1].digits, c[3].digits, c[5].numeral))
  }

  /** summary_re at the start of s: the errors group first, then without it. */
  function MatchSummary(s: string): Option<SummaryGroups>
  {
    match MatchItems(SummaryWithErrors, s)
    case Some((c, _)) => Some(SummaryGroups(c[0].digits, c[2].digits, Some(c[5].digits), c[7].digits, c[9].numeral))
    case None =>
      match MatchItems(SummaryPlain, s)
      case None => None
      case Some((c, _)) => Some(SummaryGroups(c[0].digits, c[2].digits, None, c[4].digits, c[6].numeral))
  }

  /** rtt_summary_re at the start of s. */
  function MatchRtt(s: string): Option<RttGroups>
  {
    match MatchItems(RttPattern, s)
    case None => None
    case Some((c, _)) => Some(RttGroups(c[1].numeral, c[3].numeral, c[5].numeral, c[7].numeral))
  }

  /** The three patterns tried at position i of a line, as re.search tries them. */
  function MatchResponseAt(line: string, i: nat): Option<ResponseGroups>
  {
    if i <= |line| then MatchResponse(line[i..]) else None
  }

  function MatchSummaryAt(line: string, i: nat): Option<SummaryGroups>
  {
    if i <= |line| then MatchSummary(line[i..]) else None
  }

  function MatchRttAt(line: string, i: nat): Option<RttGroups>
  {
    if i <= |line| then MatchRtt(line[i..]) else None
  }

  /** The text a response line holds for groups g. */
  function ResponseText(g: ResponseGroups): string
    requires Fits(ResponsePattern, ResponseCaptures(g))
  {
    Spelling(ResponsePattern, ResponseCaptures(g))
  }

  lemma {:induction false} ResponseComplete(g: ResponseGroups, rest: string)
    requires Fits(ResponsePattern, ResponseCaptures(g))
    ensures MatchResponse(ResponseText(g) + rest) == Some(g)
  {
    ResponsePatternWellFormed();
    MatchComplete(ResponsePattern, ResponseCaptures(g), rest);
  }

  /** Captures that fit the response pattern are those of the groups read from them. */
  lemma {:induction false} ResponseCapturesOf(c: seq<Capture>)
    requires Fits(ResponsePattern, c)
    ensures ResponseCaptures(ResponseGroups(c[1].digits, c[3].digits, c[5].numeral)) == c
  {
    var p := ResponsePattern;
    assert ItemFits(p[0], c[0]) && ItemFits(p[2], c[2]);
    assert ItemFits(p[4], c[4]) && ItemFits(p[6], c[6]);
  }

  lemma {:induction false} ResponseSound(s: string)
    requires MatchResponse(s).Some?
    ensures var g := MatchResponse(s).value;
            Fits(ResponsePattern, ResponseCaptures(g)) && ResponseText(g) <= s
  {
    var m := MatchItems(ResponsePattern, s).value;
    MatchSound(ResponsePattern, s);
    ResponseCapturesOf(m.0);
  }

  /** The response pattern captures g from s exactly when s starts with the text of g. */
  lemma {:induction false} ResponseMatch(s: string, g: ResponseGroups)
    ensures MatchResponse(s) == Some(g) <==>
            Fits(ResponsePattern, ResponseCaptures(g)) && ResponseText(g) <= s
  {
    if MatchResponse(s) == Some(g) {
      ResponseSound(s);
    }
    if Fits(ResponsePattern, ResponseCaptures(g)) && ResponseText(g) <= s {
      var t := ResponseText(g);
      assert s == t + s[|t|..];
      ResponseComplete(g, s[|t|..]);
    }
  }

  /** The text an rtt line holds for groups g. */
  function RttText(g: RttGroups): string
    requires Fits(RttPattern, RttCaptures(g))
  {
    Spelling(RttPattern, RttCaptures(g))
  }

  lemma {:induction false} RttComplete(g: RttGroups, rest: string)
    requires Fits(RttPattern, RttCaptures(g))
    ensures MatchRtt(RttText(g) + rest) == Some(g)
  {
    RttPatternWellFormed();
    MatchComplete(RttPattern, RttCaptures(g), rest);
  }

  /** Captures that fit the rtt pattern are those of the groups read from them. */
  lemma {:induction false} RttCapturesOf(c: seq<Capture>)
    requires Fits(RttPattern, c)
    ensures RttCaptures(RttGroups(c[1].numeral, c[3].numeral, c[5].numeral, c[7].numeral)) == c
  {
    var p := RttPattern;
    assert ItemFits(p[0], c[0]) && ItemFits(p[2], c[2]) && ItemFits(p[4], c[4]);
    assert ItemFits(p[6], c[6]) && ItemFits(p[8], c[8]);
  }

  lemma {:induction false} RttSound(s: string)
    requires MatchRtt(s).Some?
    ensures var g := MatchRtt(s).value;
            Fits(RttPattern, RttCaptures(g)) && RttText(g) <= s
  {
    var m := MatchItems(RttPattern, s).value;
    MatchSound(RttPattern, s);
    RttCapturesOf(m.0);
  }

  /** The rtt pattern captures g from s exactly when s starts with the text of g. */
  lemma {:induction false} RttMatch(s: string, g: RttGroups)
    ensures MatchRtt(s) == Some(g) <==> Fits(RttPattern, RttCaptures(g)) && RttText(g) <= s
  {
    if MatchRtt(s) == Some(g) {
      RttSound(s);
    }
    if Fits(RttPattern, RttCaptures(g)) && RttText(g) <= s {
      var t := RttText(g);
      assert s == t + s[|t|..];
      RttComplete(g, s[|t|..]);
    }
  }

  /** The text a summary line holds for groups g: with "+N errors, " when g has an error count. */
  function SummaryText(g: SummaryGroups): string
    requires Fits(SummaryPattern(g), SummaryCaptures(g))
  {
    Spelling(SummaryPattern(g), SummaryCaptures(g))
  }

  /** The two alternatives of the errors group never both match the same text. */
  lemma {:induction false} SummaryAlternativesExclusive(s: string)
    ensures !(MatchItems(SummaryWithErrors, s).Some? && MatchItems(SummaryPlain, s).Some?)
  {
    var errorsTail := [Lit("+"), Int, Lit(" errors, ")] + SummaryTail;
    assert SummaryWithErrors == SummaryHead + errorsTail;
    assert SummaryPlain == SummaryHead + SummaryTail;
    MatchAppend(SummaryHead, errorsTail, s);
    MatchAppend(SummaryHead, SummaryTail, s);
    if MatchItems(SummaryWithErrors, s).Some? && MatchItems(SummaryPlain, s).Some? {
      assert false;
    }
  }

  lemma {:induction false} SummaryComplete(g: SummaryGroups, rest: string)
    requires Fits(SummaryPattern(g), SummaryCaptures(g))
    ensures MatchSummary(SummaryText(g) + rest) == Some(g)
  {
    var s := SummaryText(g) + rest;
    SummaryWithErrorsWellFormed();
    SummaryPlainWellFormed();
    MatchComplete(SummaryPattern(g), SummaryCaptures(g), rest);
    SummaryAlternativesExclusive(s);
  }

  /** Captures that fit the pattern with an errors group are the captures of the groups read from them. */
  lemma {:induction false} SummaryWithErrorsCaptures(c: seq<Capture>)
    requires Fits(SummaryWithErrors, c)
    ensures SummaryCaptures(SummaryGroups(c[0].digits, c[2].digits, Some(c[5].digits), c[7].digits, c[9].numeral)) == c
  {
    var p := SummaryWithErrors;
    assert ItemFits(p[1], c[1]) && ItemFits(p[3], c[3]) && ItemFits(p[4], c[4]) && ItemFits(p[6], c[6]);
    assert ItemFits(p[8], c[8]) && ItemFits(p[10], c[10]);
  }

  lemma {:induction false} SummaryPlainCaptures(c: seq<Capture>)
    requires Fits(SummaryPlain, c)
    ensures SummaryCaptures(SummaryGroups(c[0].digits, c[2].digits, None, c[4].digits, c[6].numeral)) == c
  {
    var p := SummaryPlain;
    assert ItemFits(p[1], c[1]) && ItemFits(p[3], c[3]) && ItemFits(p[5], c[5]) && ItemFits(p[7], c[7]);
  }

  lemma {:induction false} SummaryWithErrorsSound(s: string)
    requires MatchItems(SummaryWithErrors, s).Some?
    ensures var g := MatchSummary(s).value;
            g.errors.Some? && Fits(SummaryPattern(g), SummaryCaptures(g)) && SummaryText(g) <= s
  {
    var m := MatchItems(SummaryWithErrors, s).value;
    MatchSound(SummaryWithErrors, s);
    SummaryWithErrorsCaptures(m.0);
  }

  lemma {:induction false} SummaryPlainSound(s: string)
    requires MatchItems(SummaryWithErrors, s).None? && MatchItems(SummaryPlain, s).Some?
    ensures var g := MatchSummary(s).value;
            g.errors.None? && Fits(SummaryPattern(g), SummaryCaptures(g)) && SummaryText(g) <= s
  {
    var m := MatchItems(SummaryPlain, s).value;
    MatchSound(SummaryPlain, s);
    SummaryPlainCaptures(m.0);
  }

  /**
   * The summary pattern captures g from s exactly when s starts with the
   * text of g: with the "+N errors, " part when g has an error count,
   * without it otherwise.
   */
  lemma {:induction false} SummaryMatch(s: string, g: SummaryGroups)
    ensures MatchSummary(s) == Some(g) <==>
            Fits(SummaryPattern(g), SummaryCaptures(g)) && SummaryText(g) <= s
  {
    if MatchSummary(s) == Some(g) {
      if MatchItems(SummaryWithErrors, s).Some? {
        SummaryWithErrorsSound(s);
      } else {
        SummaryPlainSound(s);
      }
    }
    if Fits(SummaryPattern(g), SummaryCaptures(g)) && SummaryText(g) <= s {
      var t := SummaryText(g);
      assert s == t + s[|t|..];
      SummaryComplete(g, s[|t|..]);
    }
  }
}
