/** The weekday rewrite keeps the meaning of the field and touches nothing else. */
module CronRewrite {
  import opened Prelude
  import opened Strings
  import opened CronWeekdays

  /** A rewritten token: `*` or a lower-case weekday name. */
  predicate Canonical(s: string) { s == "*" || s in NAMES }

  /** Every weekday name at most once. */
  ghost predicate NoWeekdayTwice(tokens: seq<string>) {
    forall i, j :: 0 <= i < j < |tokens| && tokens[i] != "*" ==> tokens[i] != tokens[j]
  }

  // ------------------------------------------------------------ canonical tokens

  lemma NameIsLetters(name: string)
    requires name in NAMES
    ensures Letters(name) && !Digits(name) && Lower(name) == name
  {
    assert name[0] > '9';
    assert |Lower(name)| == |name|;
  }

  lemma NameParses(name: string)
    requires name in NAMES
    ensures Parse(name) == Some(Span(name, None, None))
  {
    NameIsLetters(name);
    assert Render(Span(name, None, None)) == name + "" + "" == name;
    ParseIsRender(name, Span(name, None, None));
  }

  lemma PositionOfName(i: nat)
    requires i < 7
    ensures PositionOf(NAMES[i]) == i
  {
  }

  /** A weekday name denotes that day and expands to itself. */
  lemma NameMeans(i: nat)
    requires i < 7
    ensures Accepts(NAMES[i]) && Expand(NAMES[i]) == Some([NAMES[i]]) && TokenDays(NAMES[i]) == {i}
  {
    NameParses(NAMES[i]);
    NameIsLetters(NAMES[i]);
    PositionOfName(i);
    OneDay(i);
  }

  lemma OneDay(i: nat)
    requires i < 7
    ensures NamesOf(Progression(i, i, 1)) == [NAMES[i]] && Days(Progression(i, i, 1)) == {i}
  {
    var p := Progression(i, i, 1);
    assert NamesOf(p) == [NAMES[i]] + NamesOf(Progression(i + 1, i, 1));
    assert forall v: nat :: Hits(p, v) <==> v == i;
  }

  lemma StarMeans()
    ensures Accepts("*") && Expand("*") == Some(["*"])
  {
    ParseIsRender("*", Star(None));
    assert Render(Star(None)) == "*";
  }

  lemma CanonicalExpands(s: string)
    requires Canonical(s)
    ensures Accepts(s) && Expand(s) == Some([s])
  {
    if s == "*" {
      StarMeans();
    } else {
      NameMeans(PositionOf(s));
    }
  }

  // ------------------------------------------------------------ progressions

  lemma StepBack(x: nat, step: nat)
    requires 1 <= step <= 7 && x <= 7
    ensures x >= step ==> x % step == (x - step) % step
    ensures 0 < x < step ==> x % step != 0
  {
    match step
    case 1 =>
    case 2 =>
    case 3 =>
    case 4 =>
    case 5 =>
    case 6 =>
    case _ => assert step == 7;
  }

  lemma HitsFromFirst(p: Progression, v: nat)
    requires 1 <= p.step <= 7 && p.first <= p.last <= 7
    ensures Hits(p, v) <==> v == p.first || Hits(p.(first := p.first + p.step), v)
  {
    if p.first <= v <= p.last {
      StepBack(v - p.first, p.step);
    }
  }

  lemma DaysFromFirst(p: Progression)
    requires 1 <= p.step <= 7 && p.first <= p.last <= 7
    ensures Days(p) == {p.first % 7} + Days(p.(first := p.first + p.step))
  {
    forall v: nat ensures Hits(p, v) <==> v == p.first || Hits(p.(first := p.first + p.step), v) {
      HitsFromFirst(p, v);
    }
    assert p.first == 7 || p.first % 7 == p.first;
  }

  lemma {:induction false} FieldDaysAppend(a: seq<string>, b: seq<string>)
    ensures FieldDays(a + b) == FieldDays(a) + FieldDays(b)
  {
    if b == [] {
      assert a + b == a;
    } else {
      assert (a + b)[..|a + b| - 1] == a + b[..|b| - 1];
      FieldDaysAppend(a, b[..|b| - 1]);
    }
  }

  lemma FieldDaysOne(s: string)
    ensures FieldDays([s]) == TokenDays(s)
  {
    assert [s][..0] == [];
  }

  lemma {:induction false} NamesAreCanonical(p: Progression)
    requires p.step > 0
    ensures forall name :: name in NamesOf(p) ==> Canonical(name)
    ensures p.first <= p.last ==> NamesOf(p) != []
    decreases p.last + 1 - p.first
  {
    if p.first <= p.last {
      NamesAreCanonical(p.(first := p.first + p.step));
      var name := NAMES[p.first % 7];
      assert Canonical(name);
      assert NamesOf(p) == [name] + NamesOf(p.(first := p.first + p.step));
    }
  }

  lemma OneName(p: Progression)
    requires p.step > 0 && p.first <= p.last
    ensures FieldDays([NAMES[p.first % 7]]) == {p.first % 7}
  {
    NameMeans(p.first % 7);
    FieldDaysOne(NAMES[p.first % 7]);
  }

  lemma NothingMeansNothing(p: Progression)
    requires p.step > 0 && p.first > p.last
    ensures NamesOf(p) == [] && FieldDays([]) == {} == Days(p)
  {
    assert forall v: nat :: !Hits(p, v);
  }

  lemma OneMoreName(p: Progression, rest: seq<string>)
    requires 1 <= p.step <= 7 && p.first <= p.last <= 7
    requires rest == NamesOf(p.(first := p.first + p.step))
    requires FieldDays(rest) == Days(p.(first := p.first + p.step))
    ensures FieldDays(NamesOf(p)) == Days(p)
  {
    hide TokenDays, Days, FieldDays, Accepts, Expand;
    DaysFromFirst(p);
    OneName(p);
    FieldDaysAppend([NAMES[p.first % 7]], rest);
  }

  /** The expanded names denote exactly the days of the progression. */
  lemma {:induction false} NamesMean(p: Progression)
    requires 1 <= p.step <= 7 && p.last <= 7
    ensures FieldDays(NamesOf(p)) == Days(p)
    decreases p.last + 1 - p.first
  {
    hide TokenDays, Days, FieldDays, Accepts, Expand, NamesOf;
    if p.first > p.last {
      NothingMeansNothing(p);
    } else {
      var q := p.(first := p.first + p.step);
      NamesMean(q);
      OneMoreName(p, NamesOf(q));
    }
  }

  /** Expanding a token keeps its days. */
  lemma ExpandMeans(s: string)
    requires Accepts(s)
    ensures Expand(s).Some? && Expand(s).value != []
    ensures FieldDays(Expand(s).value) == TokenDays(s)
    ensures forall name :: name in Expand(s).value ==> Canonical(name)
  {
    if Parse(s).value == Star(None) {
      ParseIsRender(s, Star(None));
      assert s == "*" + "" == "*";
      FieldDaysOne(s);
    } else {
      NamesMean(Meaning(Parse(s).value).value);
      NamesAreCanonical(Meaning(Parse(s).value).value);
    }
  }

  // ------------------------------------------------------------ the field

  lemma {:induction false} DaysOfMember(tokens: seq<string>, s: string)
    requires s in tokens
    ensures TokenDays(s) <= FieldDays(tokens)
  {
    if s != tokens[|tokens| - 1] {
      DaysOfMember(tokens[..|tokens| - 1], s);
    }
  }

  lemma {:induction false} MergeMeans(acc: seq<string>, names: seq<string>)
    requires NoWeekdayTwice(acc) && (forall s :: s in acc + names ==> Canonical(s))
    ensures FieldDays(Merge(acc, names)) == FieldDays(acc) + FieldDays(names)
    ensures NoWeekdayTwice(Merge(acc, names)) && (forall s :: s in Merge(acc, names) ==> Canonical(s))
    ensures acc != [] || names != [] ==> Merge(acc, names) != []
  {
    hide TokenDays, Canonical;
    if names != [] {
      var last := names[|names| - 1];
      MergeMeans(acc, names[..|names| - 1]);
      var front := Merge(acc, names[..|names| - 1]);
      if last == "*" || last !in front {
        assert (front + [last])[..|front|] == front;
      } else {
        DaysOfMember(front, last);
      }
    }
  }

  lemma {:induction false} FieldMeans(tokens: seq<string>)
    ensures NormalizeTokens(tokens).None? <==> exists s :: s in tokens && !Accepts(s)
    ensures NormalizeTokens(tokens).Some? ==>
      var out := NormalizeTokens(tokens).value;
      && FieldDays(out) == FieldDays(tokens)
      && NoWeekdayTwice(out) && (forall s :: s in out ==> Canonical(s))
      && (tokens != [] ==> out != [])
  {
    hide Expand, TokenDays, Accepts, Canonical, Merge, NoWeekdayTwice;
    if tokens == [] {
      NothingTwice();
    } else {
      var front, last := tokens[..|tokens| - 1], tokens[|tokens| - 1];
      FieldMeans(front);
      assert tokens == front + [last];
      RejectedExpands(last);
      if Accepts(last) {
        ExpandMeans(last);
        if NormalizeTokens(front).Some? {
          MergeMeans(NormalizeTokens(front).value, Expand(last).value);
        }
      }
    }
  }

  lemma NothingTwice()
    ensures NoWeekdayTwice([])
  {
  }

  lemma RejectedExpands(s: string)
    ensures Expand(s).None? <==> !Accepts(s)
  {
  }

  /** A canonical field is its own normal form. */
  lemma {:induction false} CanonicalFieldFixed(tokens: seq<string>)
    requires NoWeekdayTwice(tokens) && (forall s :: s in tokens ==> Canonical(s))
    ensures NormalizeTokens(tokens) == Some(tokens)
  {
    hide Expand, Accepts, Canonical, Merge;
    if tokens != [] {
      var front, last := tokens[..|tokens| - 1], tokens[|tokens| - 1];
      assert tokens == front + [last];
      CanonicalFieldFixed(front);
      CanonicalExpands(last);
      assert last == "*" || last !in front;
      MergeOne(front, last);
    }
  }

  lemma MergeOne(acc: seq<string>, name: string)
    requires name == "*" || name !in acc
    ensures Merge(acc, [name]) == acc + [name]
  {
    assert [name][..0] == [];
    assert Merge(acc, []) == acc;
  }

  lemma CanonicalPlain(s: string)
    requires Canonical(s)
    ensures ',' !in s && s != "" && forall i :: 0 <= i < |s| ==> !IsSpace(s[i])
  {
    if s != "*" {
      NameIsLetters(s);
    }
  }

  lemma JoinedIsWord(tokens: seq<string>)
    requires tokens != [] && forall s :: s in tokens ==> Canonical(s)
    ensures IsWord(Join(tokens, ","))
  {
    var j := Join(tokens, ",");
    CanonicalPlain(tokens[0]);
    forall i | 0 <= i < |j| ensures !IsSpace(j[i]) {
      JoinChars(tokens, ",", j[i]);
      if j[i] !in "," {
        var p :| p in tokens && j[i] in p;
        CanonicalPlain(p);
      }
    }
  }

  // ------------------------------------------------------------ the expression

  /** The weekdays a five-field expression runs on, its day-of-week field read on its own. */
  ghost function Weekdays(expression: string): set<nat>
    requires |Words(expression)| == 5
  {
    FieldDays(SplitOn(Words(expression)[4], ','))
  }

  /** Rewriting fails exactly on a malformed token; otherwise the result has the same other four
      fields and the same weekdays, spelled as names with no weekday twice, and rewriting it again
      changes nothing. */
  lemma RewriteKeepsMeaning(expression: string)
    requires |Words(expression)| == 5
    ensures Normalize(expression).None? <==> exists s :: s in SplitOn(Words(expression)[4], ',') && !Accepts(s)
    ensures Normalize(expression).Some? ==>
      var out := Normalize(expression).value;
      && |Words(out)| == 5
      && Words(out)[..4] == Words(expression)[..4]
      && Weekdays(out) == Weekdays(expression)
      && (forall s :: s in SplitOn(Words(out)[4], ',') ==> Canonical(s))
      && NoWeekdayTwice(SplitOn(Words(out)[4], ','))
      && Normalize(out) == Some(out)
  {
    var fields := Words(expression);
    var tokens := SplitOn(fields[4], ',');
    FieldMeans(tokens);
    if NormalizeTokens(tokens).Some? {
      var out := NormalizeTokens(tokens).value;
      var fields' := fields[4 := Join(out, ",")];
      JoinedIsWord(out);
      forall w | w in fields' ensures IsWord(w) {
        assert w in fields || w == Join(out, ",");
      }
      WordsOfJoin(fields');
      forall s | s in out ensures ',' !in s {
        CanonicalPlain(s);
      }
      SplitOfJoin(out, ',');
      CanonicalFieldFixed(out);
      assert fields'[4 := Join(out, ",")] == fields';
      assert fields'[..4] == fields[..4];
    }
  }
}
