/** Rewriting the day-of-week field of a crontab expression (Sunday = 0 or 7) into explicit
    weekday names. */
module CronWeekdays {
  import opened Prelude
  import opened Strings

  const NAMES: seq<string> := ["sun", "mon", "tue", "wed", "thu", "fri", "sat"]

  predicate Digits(s: string) {
    s != "" && forall i :: 0 <= i < |s| ==> '0' <= s[i] <= '9'
  }

  predicate Letters(s: string) {
    s != "" && forall i :: 0 <= i < |s| ==> 'a' <= s[i] <= 'z' || 'A' <= s[i] <= 'Z'
  }

  function Number(s: string): nat
    requires Digits(s)
  {
    var d := s[|s| - 1] as int - '0' as int;
    if |s| == 1 then d else Number(s[..|s| - 1]) * 10 + d
  }

  function Lower(s: string): string {
    seq(|s|, i requires 0 <= i < |s| => if 'A' <= s[i] <= 'Z' then (s[i] as int + 32) as char else s[i])
  }

  // ------------------------------------------------------------ token syntax

  /** `*`, `*` with a step, a value, a range, either with a step. */
  datatype Token =
    | Star(step: Option<string>)
    | Span(start: string, end: Option<string>, step: Option<string>)

  predicate IsValue(s: string) { Digits(s) || Letters(s) }

  predicate WellFormed(t: Token) {
    && (t.step.Some? ==> Digits(t.step.value))
    && (t.Span? ==> IsValue(t.start) && (t.end.Some? ==> IsValue(t.end.value)))
  }

  function Suffix(sep: char, part: Option<string>): string {
    if part.Some? then [sep] + part.value else ""
  }

  /** The text of a token. */
  function Render(t: Token): string {
    match t
    case Star(step) => "*" + Suffix('/', step)
    case Span(start, end, step) => start + Suffix('-', end) + Suffix('/', step)
  }

  /** Text before and after the first separator. */
  function Cut(s: string, sep: char): (string, Option<string>) {
    var i := IndexOf(s, sep);
    if i < |s| then (s[..i], Some(s[i + 1..])) else (s, None)
  }

  /** The two regular expressions, each matched against the whole token. */
  function Parse(s: string): Option<Token> {
    var (head, step) := Cut(s, '/');
    var t := if head == "*" then Star(step)
             else var (start, end) := Cut(head, '-'); Span(start, end, step);
    if WellFormed(t) then Some(t) else None
  }

  lemma CutOfSuffix(head: string, sep: char, part: Option<string>)
    requires sep !in head
    ensures Cut(head + Suffix(sep, part), sep) == (head, part)
  {
    var s := head + Suffix(sep, part);
    assert s[..|head|] == head;
    IndexOfIs(s, sep, |head|);
    if part.Some? {
      assert s[|head| + 1..] == part.value;
    } else {
      assert s == head;
    }
  }

  lemma SuffixOfCut(s: string, sep: char)
    ensures Cut(s, sep).0 + Suffix(sep, Cut(s, sep).1) == s
    ensures sep !in Cut(s, sep).0
  {
  }

  lemma PlainValue(s: string, c: char)
    requires IsValue(s) && (c == '/' || c == '-' || c == '*' || c == ',')
    ensures c !in s
  {
  }

  /** A text parses as a token exactly when it is the rendering of a well-formed one. */
  lemma ParseIsRender(s: string, t: Token)
    ensures Parse(s) == Some(t) <==> WellFormed(t) && Render(t) == s
  {
    if WellFormed(t) && Render(t) == s {
      match t
      case Star(step) =>
        CutOfSuffix("*", '/', step);
      case Span(start, end, step) =>
        PlainValue(start, '/');
        PlainValue(start, '-');
        PlainValue(start, '*');
        if end.Some? {
          PlainValue(end.value, '/');
        }
        var head := start + Suffix('-', end);
        assert head[0] == start[0];
        CutOfSuffix(start, '-', end);
        CutOfSuffix(head, '/', step);
    }
    if Parse(s) == Some(t) {
      SuffixOfCut(s, '/');
      SuffixOfCut(Cut(s, '/').0, '-');
    }
  }

  // ------------------------------------------------------------ meaning

  /** The number a range endpoint stands for. */
  function Endpoint(s: string): Option<nat>
    requires IsValue(s)
  {
    if Digits(s) then (if Number(s) <= 7 then Some(Number(s)) else None)
    else if Lower(s) in NAMES then Some(PositionOf(Lower(s)))
    else None
  }

  function PositionOf(name: string): (i: nat)
    requires name in NAMES
    ensures i < 7 && NAMES[i] == name
  {
    if name == NAMES[0] then 0 else if name == NAMES[1] then 1 else if name == NAMES[2] then 2
    else if name == NAMES[3] then 3 else if name == NAMES[4] then 4 else if name == NAMES[5] then 5 else 6
  }

  function StepOf(t: Token): nat
    requires WellFormed(t)
  {
    if t.step.Some? then Number(t.step.value) else 1
  }

  /** A token denotes the days `first, first+step, ..` up to `last`. */
  datatype Progression = Progression(first: nat, last: nat, step: nat)

  /** The progression of a token, or nothing when a bound, a step or an order is unacceptable. */
  function Meaning(t: Token): (r: Option<Progression>)
    requires WellFormed(t)
    ensures r.Some? ==> r.value.first <= r.value.last <= 7 && 1 <= r.value.step <= 7
  {
    var step := StepOf(t);
    match t
    case Star(_) => if 1 <= step <= 7 then Some(Progression(0, 6, step)) else None
    case Span(start, end, _) =>
      var first := Endpoint(start);
      var last := if end.Some? then Endpoint(end.value) else if t.step.Some? then Some(7) else first;
      if first.None? || last.None? || (end.Some? && Digits(start) != Digits(end.value)) then None
      else if first.value <= last.value && 1 <= step <= 7 && step <= last.value - first.value + 1
      then Some(Progression(first.value, last.value, step))
      else None
  }

  predicate Hits(p: Progression, v: nat)
    requires p.step > 0
  {
    p.first <= v <= p.last && (v - p.first) % p.step == 0
  }

  /** The weekdays of a progression, Sunday being both 0 and 7. */
  ghost function Days(p: Progression): set<nat>
    requires p.step > 0
  {
    set d: nat | d < 7 && (Hits(p, d) || (d == 0 && Hits(p, 7)))
  }

  /** The weekdays a token denotes; a malformed token denotes none. */
  ghost function TokenDays(s: string): set<nat> {
    if Accepts(s) then Days(Meaning(Parse(s).value).value) else {}
  }

  predicate Accepts(s: string) {
    Parse(s).Some? && Meaning(Parse(s).value).Some?
  }

  /** The union over a list of tokens. */
  ghost function FieldDays(tokens: seq<string>): set<nat> {
    if tokens == [] then {} else FieldDays(tokens[..|tokens| - 1]) + TokenDays(tokens[|tokens| - 1])
  }

  // ------------------------------------------------------------ expansion

  /** `range(first, last+1, step)` as weekday names. */
  function NamesOf(p: Progression): seq<string>
    requires p.step > 0
    decreases p.last + 1 - p.first
  {
    if p.first > p.last then [] else [NAMES[p.first % 7]] + NamesOf(p.(first := p.first + p.step))
  }

  function Expand(s: string): Option<seq<string>> {
    if !Accepts(s) then None
    else if Parse(s).value == Star(None) then Some(["*"])
    else Some(NamesOf(Meaning(Parse(s).value).value))
  }

  /** Appending expanded names, dropping weekdays already present. */
  function Merge(acc: seq<string>, names: seq<string>): seq<string> {
    if names == [] then acc
    else
      var front, last := Merge(acc, names[..|names| - 1]), names[|names| - 1];
      if last == "*" || last !in front then front + [last] else front
  }

  function NormalizeTokens(tokens: seq<string>): Option<seq<string>> {
    if tokens == [] then Some([])
    else
      var front := NormalizeTokens(tokens[..|tokens| - 1]);
      var names := Expand(tokens[|tokens| - 1]);
      if front.None? || names.None? then None else Some(Merge(front.value, names.value))
  }

  /** The whole rewrite; an expression that does not have five fields is left alone. */
  function Normalize(expression: string): Option<string> {
    var fields := Words(expression);
    if |fields| != 5 then Some(expression)
    else
      var tokens := NormalizeTokens(SplitOn(fields[4], ','));
      if tokens.None? then None else Some(Join(fields[4 := Join(tokens.value, ",")], " "))
  }

  /** `_normalize_crontab_day_of_week`. */
  method NormalizeCrontabDayOfWeek(expression: string) returns (r: Option<string>)
    ensures r == Normalize(expression)
    ensures |Words(expression)| != 5 ==> r == Some(expression)
  {
    hide Expand, Merge, NormalizeTokens, Words, SplitOn, Join;
    var fields := Words(expression);
    if |fields| != 5 {
      return Some(expression);
    }
    var tokens := SplitOn(fields[4], ',');
    NothingNormalized(tokens);
    var normalized: seq<string> := [];
    var seen: set<string> := {};
    var t := 0;
    while t < |tokens|
      invariant 0 <= t <= |tokens|
      invariant NormalizeTokens(tokens[..t]) == Some(normalized)
      invariant forall name :: name != "*" ==> (name in seen <==> name in normalized)
    {
      TokenNormalized(tokens, t);
      var names := Expand(tokens[t]);
      if names.None? {
        RejectedPrefix(tokens, t + 1);
        return None;
      }
      ghost var before := normalized;
      NothingMerged(before, names.value);
      var n := 0;
      while n < |names.value|
        invariant 0 <= n <= |names.value|
        invariant normalized == Merge(before, names.value[..n])
        invariant forall name :: name != "*" ==> (name in seen <==> name in normalized)
      {
        var name := names.value[n];
        NameMerged(before, names.value, n);
        if name == "*" {
          normalized := normalized + [name];
        } else if name !in seen {
          seen := seen + {name};
          normalized := normalized + [name];
        }
        n := n + 1;
      }
      assert names.value[..n] == names.value;
      t := t + 1;
    }
    assert tokens[..t] == tokens;
    r := Some(Join(fields[4 := Join(normalized, ",")], " "));
  }

  lemma NothingNormalized(tokens: seq<string>)
    ensures NormalizeTokens(tokens[..0]) == Some([])
  {
  }

  lemma TokenNormalized(tokens: seq<string>, t: nat)
    requires t < |tokens|
    ensures
      var front, names := NormalizeTokens(tokens[..t]), Expand(tokens[t]);
      NormalizeTokens(tokens[..t + 1]) ==
      if front.None? || names.None? then None else Some(Merge(front.value, names.value))
  {
    assert tokens[..t + 1][..t] == tokens[..t];
  }

  lemma NothingMerged(acc: seq<string>, names: seq<string>)
    ensures Merge(acc, names[..0]) == acc
  {
  }

  lemma NameMerged(acc: seq<string>, names: seq<string>, n: nat)
    requires n < |names|
    ensures
      var front := Merge(acc, names[..n]);
      Merge(acc, names[..n + 1]) == if names[n] == "*" || names[n] !in front then front + [names[n]] else front
  {
    assert names[..n + 1][..n] == names[..n];
  }

  lemma {:induction false} RejectedPrefix(tokens: seq<string>, n: nat)
    requires n <= |tokens| && NormalizeTokens(tokens[..n]) == None
    ensures NormalizeTokens(tokens) == None
    decreases |tokens|
  {
    if n < |tokens| {
      assert tokens[..|tokens| - 1][..n] == tokens[..n];
      RejectedPrefix(tokens[..|tokens| - 1], n);
    } else {
      assert tokens[..n] == tokens;
    }
  }
}
