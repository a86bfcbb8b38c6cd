/** What a day-of-week token denotes, in integers: the numbers its texts spell, the days it runs through,
    and the names it is rewritten to. */
module CronDenotation {
  import opened Prelude
  import opened Strings
  import opened CronWeekdays
  import opened CronRewrite

  /** The name of a weekday, Sunday being both 0 and 7. */
  function Named(v: nat): string {
    match v % 7
    case 0 => "sun"
    case 1 => "mon"
    case 2 => "tue"
    case 3 => "wed"
    case 4 => "thu"
    case 5 => "fri"
    case _ => "sat"
  }

  /** A decimal text for `v <= 7`: any number of leading zeros, then one digit. */
  predicate SpellsNumber(s: string, v: nat) {
    && v <= 7 && s != ""
    && s[|s| - 1] as int == '0' as int + v
    && forall i :: 0 <= i < |s| - 1 ==> s[i] == '0'
  }

  /** A weekday name, each letter in either case. */
  predicate SpellsName(s: string, v: nat) {
    && v < 7 && |s| == 3
    && forall i :: 0 <= i < 3 ==> s[i] == Named(v)[i] || s[i] as int + 32 == Named(v)[i] as int
  }

  /** Day `v` lies on the walk from `a` to `b` in steps of `s`. */
  predicate Runs(a: nat, b: nat, s: nat, v: nat)
    requires s > 0
  {
    a <= v <= b && (v - a) % s == 0
  }

  /** The days of the week the walk visits. */
  ghost predicate Visits(a: nat, b: nat, s: nat, d: nat)
    requires s > 0
  {
    exists v: nat :: Runs(a, b, s, v) && v % 7 == d
  }

  /** The names of the walk, one for each stop. */
  ghost predicate Walks(a: nat, b: nat, s: nat, names: seq<string>) {
    && a + (|names| - 1) * s <= b < a + |names| * s
    && forall i :: 0 <= i < |names| ==> names[i] == Named(a + i * s)
  }

  // ------------------------------------------------------------ endpoints

  lemma {:induction false} NumberSpelled(s: string, v: nat)
    requires Digits(s) && v <= 9
    ensures Number(s) == v <==>
      s[|s| - 1] as int == '0' as int + v && forall i :: 0 <= i < |s| - 1 ==> s[i] == '0'
  {
    if |s| > 1 {
      var front := s[..|s| - 1];
      assert Digits(front);
      NumberSpelled(front, 0);
      assert front[|front| - 1] == s[|s| - 2];
      if forall i :: 0 <= i < |s| - 1 ==> s[i] == '0' {
        assert forall i :: 0 <= i < |front| - 1 ==> front[i] == '0';
      } else {
        var i :| 0 <= i < |s| - 1 && s[i] != '0';
        assert front[i] != '0';
      }
    }
  }

  lemma LowerSpelled(s: string, v: nat)
    requires Letters(s) && v < 7
    ensures Lower(s) == Named(v) <==> SpellsName(s, v)
  {
    assert |Named(v)| == 3;
    if |s| == 3 {
      assert Lower(s) == [Lower(s)[0], Lower(s)[1], Lower(s)[2]];
      assert Named(v) == [Named(v)[0], Named(v)[1], Named(v)[2]];
    }
  }

  lemma NamesInOrder(v: nat)
    requires v <= 7
    ensures NAMES[v % 7] == Named(v) && Named(v) in NAMES
  {
  }

  lemma NamesApart(v: nat, u: nat)
    requires v < 7 && u < 7 && Named(v) == Named(u)
    ensures v == u
  {
    assert Named(v)[0] == Named(u)[0] && Named(v)[1] == Named(u)[1];
  }

  lemma SpelledInOneWay(s: string, v: nat)
    ensures SpellsNumber(s, v) ==> Digits(s) && v <= 7
    ensures SpellsName(s, v) ==> Letters(s)
    ensures !(Digits(s) && Letters(s))
  {
    assert Digits(s) ==> s[0] <= '9';
    assert Letters(s) ==> s[0] > '9';
  }

  lemma NameAt(name: string, v: nat)
    requires name in NAMES && v < 7
    ensures PositionOf(name) == v <==> name == Named(v)
    ensures Named(v) in NAMES
  {
    hide Named, PositionOf;
    NamesInOrder(v);
    NamesInOrder(PositionOf(name));
    if name == Named(v) {
      NamesApart(v, PositionOf(name));
    }
  }

  lemma NameEndpoint(s: string, v: nat)
    requires Letters(s) && !Digits(s)
    ensures Endpoint(s) == Some(v) <==> SpellsName(s, v)
  {
    hide Letters, Digits, Lower, SpellsName, Named, PositionOf;
    if v < 7 {
      LowerSpelled(s, v);
      NameAt(NAMES[0], v);
      if Lower(s) in NAMES {
        NameAt(Lower(s), v);
      }
    } else {
      assert !SpellsName(s, v) by { SmallName(s, v); }
    }
  }

  lemma SmallName(s: string, v: nat)
    ensures SpellsName(s, v) ==> v < 7
  {
  }

  /** An endpoint stands for `v` exactly when its text spells `v`, as a number or as a name. */
  lemma EndpointSpelled(s: string, v: nat)
    requires IsValue(s)
    ensures Endpoint(s) == Some(v) <==> SpellsNumber(s, v) || SpellsName(s, v)
  {
    hide Letters, SpellsName;
    SpelledInOneWay(s, v);
    if Digits(s) {
      if v <= 7 {
        NumberSpelled(s, v);
      }
    } else {
      NameEndpoint(s, v);
    }
  }

  /** A step is accepted from 1 to 7. */
  lemma StepSpelled(s: string, v: nat)
    requires Digits(s) && v <= 7
    ensures Number(s) == v <==> SpellsNumber(s, v)
  {
    NumberSpelled(s, v);
  }

  // ------------------------------------------------------------ walks

  lemma DaysAreVisits(p: Progression)
    requires p.step > 0 && p.last <= 7
    ensures forall d: nat :: d in Days(p) <==> Visits(p.first, p.last, p.step, d)
  {
    forall d: nat ensures d in Days(p) <==> Visits(p.first, p.last, p.step, d) {
      if d in Days(p) {
        if Hits(p, d) {
          assert Runs(p.first, p.last, p.step, d);
        } else {
          assert Runs(p.first, p.last, p.step, 7);
        }
      }
      if v: nat :| Runs(p.first, p.last, p.step, v) && v % 7 == d {
        assert Hits(p, v);
        assert v == 7 || v == d;
      }
    }
  }

  lemma WalkOn(a: nat, b: nat, s: nat, rest: seq<string>)
    requires Walks(a + s, b, s, rest)
    ensures Walks(a, b, s, [Named(a)] + rest)
  {
    hide Named;
    var names := [Named(a)] + rest;
    assert |names| * s == |rest| * s + s;
    assert (|names| - 1) * s == (|rest| - 1) * s + s;
    forall i | 0 <= i < |names| ensures names[i] == Named(a + i * s) {
      if i > 0 {
        assert i * s == (i - 1) * s + s;
        assert rest[i - 1] == Named(a + s + (i - 1) * s);
      }
    }
  }

  lemma LastStop(a: nat, b: nat, s: nat)
    requires a <= b < a + s
    ensures Walks(a, b, s, [Named(a)])
  {
    hide Named;
    assert [Named(a)][0] == Named(a + 0 * s);
  }

  lemma {:induction false} NamesWalk(p: Progression)
    requires 1 <= p.step && p.first <= p.last <= 7
    ensures Walks(p.first, p.last, p.step, NamesOf(p))
    decreases p.last - p.first
  {
    hide Walks, Named;
    var q := p.(first := p.first + p.step);
    NamesInOrder(p.first);
    assert NamesOf(p) == [Named(p.first)] + NamesOf(q);
    if q.first <= p.last {
      NamesWalk(q);
      WalkOn(p.first, p.last, p.step, NamesOf(q));
    } else {
      assert NamesOf(p) == [Named(p.first)];
      LastStop(p.first, p.last, p.step);
    }
  }

  // ------------------------------------------------------------ tokens

  /** `start`, `start-end`, either with `/step`, spells the walk from `a` to `b` in steps of `s`: both ends in
      the same spelling, an open end running to 7 when there is a step, and a step no longer than the walk. */
  ghost predicate Spells(start: string, end: Option<string>, step: Option<string>, a: nat, b: nat, s: nat) {
    && (SpellsNumber(start, a) || SpellsName(start, a))
    && (end.None? ==> b == if step.Some? then 7 else a)
    && (end.Some? ==> (SpellsNumber(start, a) && SpellsNumber(end.value, b)) || (SpellsName(start, a) && SpellsName(end.value, b)))
    && (if step.Some? then SpellsNumber(step.value, s) else s == 1)
    && a <= b && 1 <= s <= b - a + 1
  }

  /** The text of a token with its optional parts. */
  function TokenText(start: string, end: Option<string>, step: Option<string>): string {
    start + (if end.Some? then "-" + end.value else "") + (if step.Some? then "/" + step.value else "")
  }

  lemma SpelledMeaning(start: string, end: Option<string>, step: Option<string>, a: nat, b: nat, s: nat)
    requires WellFormed(Span(start, end, step))
    ensures Meaning(Span(start, end, step)) == Some(Progression(a, b, s)) <==> Spells(start, end, step, a, b, s)
  {
    hide Endpoint, Number, SpellsName, SpellsNumber, Digits, Letters;
    EndpointSpelled(start, a);
    SpelledInOneWay(start, a);
    if end.Some? {
      EndpointSpelled(end.value, b);
      SpelledInOneWay(end.value, b);
    }
    if step.Some? && s <= 7 {
      StepSpelled(step.value, s);
    }
    if step.Some? {
      SpelledInOneWay(step.value, s);
    }
  }

  lemma TextIsRender(start: string, end: Option<string>, step: Option<string>)
    requires WellFormed(Span(start, end, step))
    ensures Parse(TokenText(start, end, step)) == Some(Span(start, end, step))
  {
    ParseIsRender(TokenText(start, end, step), Span(start, end, step));
  }

  /** A value or range token is accepted exactly when its texts spell a walk; it then denotes the days of that
      walk and is rewritten to the names of its stops, in order. */
  lemma TokenDenotes(start: string, end: Option<string>, step: Option<string>)
    requires IsValue(start) && (end.Some? ==> IsValue(end.value)) && (step.Some? ==> Digits(step.value))
    ensures
      var text := TokenText(start, end, step);
      && (Accepts(text) <==> exists a, b, s :: Spells(start, end, step, a, b, s))
      && forall a, b, s :: Spells(start, end, step, a, b, s) ==>
           && (forall d: nat :: d in TokenDays(text) <==> Visits(a, b, s, d))
           && Expand(text).Some? && Walks(a, b, s, Expand(text).value)
  {
    hide Spells, Parse, Meaning, Walks, Days, NamesOf, Visits;
    TextIsRender(start, end, step);
    var t := Span(start, end, step);
    forall a, b, s | Spells(start, end, step, a, b, s)
      ensures Meaning(t) == Some(Progression(a, b, s))
    {
      SpelledMeaning(start, end, step, a, b, s);
    }
    if Meaning(t).Some? {
      var p := Meaning(t).value;
      SpelledMeaning(start, end, step, p.first, p.last, p.step);
      DaysAreVisits(p);
      NamesWalk(p);
    }
  }

  /** `*` denotes every day and stays; `*` with a step is accepted for a step from 1 to 7, and denotes the
      multiples of the step below 7. */
  lemma StarDenotes(step: string)
    requires Digits(step)
    ensures Expand("*") == Some(["*"]) && forall d: nat :: d in TokenDays("*") <==> d < 7
    ensures Accepts("*/" + step) <==> exists s :: s >= 1 && SpellsNumber(step, s)
    ensures forall s :: s >= 1 && SpellsNumber(step, s) ==>
      && (forall d: nat :: d in TokenDays("*/" + step) <==> d < 7 && d % s == 0)
      && Expand("*/" + step).Some? && Walks(0, 6, s, Expand("*/" + step).value)
  {
    hide Walks, NamesOf, SpellsNumber, Number, Digits, Parse;
    EveryDay();
    var text := "*/" + step;
    assert Render(Star(Some(step))) == text;
    ParseIsRender(text, Star(Some(step)));
    forall s | s >= 1 && SpellsNumber(step, s) ensures Number(step) == s <= 7 {
      SpelledInOneWay(step, s);
      StepSpelled(step, s);
    }
    if 1 <= Number(step) <= 7 {
      StepSpelled(step, Number(step));
      var p := Progression(0, 6, Number(step));
      MultiplesBelowSeven(p.step);
      NamesWalk(p);
    }
  }

  lemma EveryDay()
    ensures Expand("*") == Some(["*"]) && forall d: nat :: d in TokenDays("*") <==> d < 7
  {
    StarMeans();
    ParseIsRender("*", Star(None));
    assert Render(Star(None)) == "*";
    MultiplesBelowSeven(1);
  }

  lemma MultiplesBelowSeven(s: nat)
    requires 1 <= s <= 7
    ensures forall d: nat :: d in Days(Progression(0, 6, s)) <==> d < 7 && d % s == 0
  {
    var p := Progression(0, 6, s);
    forall d: nat ensures d in Days(p) <==> d < 7 && d % s == 0 {
      assert d - 0 == d;
      assert Hits(p, d) <==> d <= 6 && d % s == 0;
    }
  }

  /** Nothing else is accepted. */
  lemma OnlyTokens(text: string)
    requires Accepts(text)
    ensures
      || text == "*"
      || (exists step :: Digits(step) && text == "*/" + step)
      || (exists start, end, step :: WellFormed(Span(start, end, step)) && text == TokenText(start, end, step))
  {
    var t := Parse(text).value;
    ParseIsRender(text, t);
    match t
    case Star(None) =>
    case Star(Some(step)) => assert Digits(step) && text == "*/" + step;
    case Span(start, end, step) => assert WellFormed(Span(start, end, step)) && text == TokenText(start, end, step);
  }

  /** The text of a number up to 7 alone denotes that day and is rewritten to its name. */
  lemma NumberDenotes(text: string, a: nat)
    requires SpellsNumber(text, a)
    ensures TokenDays(text) == {a % 7} && Expand(text) == Some([Named(a)])
  {
    hide SpellsNumber, TokenDays, Expand, Named;
    SpelledInOneWay(text, a);
    assert TokenText(text, None, None) == text;
    TokenDenotes(text, None, None);
    assert Spells(text, None, None, a, a, 1);
    assert Runs(a, a, 1, a) && forall v: nat :: Runs(a, a, 1, v) ==> v == a;
    assert forall d: nat :: d in TokenDays(text) <==> d == a % 7;
    var names := Expand(text).value;
    assert Walks(a, a, 1, names);
    assert |names| == 1 && names[0] == Named(a + 0 * 1) && a + 0 * 1 == a;
    assert names == [Named(a)];
  }

  /** A field denotes a day exactly when one of its tokens does. */
  lemma {:induction false} FieldIsUnion(tokens: seq<string>, d: nat)
    ensures d in FieldDays(tokens) <==> exists t :: t in tokens && d in TokenDays(t)
  {
    hide TokenDays;
    if tokens != [] {
      var front, last := tokens[..|tokens| - 1], tokens[|tokens| - 1];
      FieldIsUnion(front, d);
      assert tokens == front + [last];
    }
  }
}
