/** Diffing a subscription's notices against what it has seen, emitting inbox events,
    and advancing the seen cursor. */
module SubscriptionDiff {
  import opened Prelude
  import Strings

  type SourceId = string
  type Hash = string

  /** The comparison view of one notice version; currency and title are not material. */
  datatype NoticeView = NoticeView(
    contentHash: Hash,
    title: Option<string>,
    purchaser: Option<string>,
    region: Option<string>,
    budgetMinorUnits: Option<int>,
    budgetCurrency: Option<string>,
    deadline: Option<int>,
    procurementScope: Option<string>,
    cancellation: bool,
    claimSupportingTexts: seq<string>)

  datatype Field = Deadline | Budget | Region | Purchaser | Scope | Cancellation | ClaimEvidence

  datatype Match = Match(id: SourceId, view: NoticeView)

  datatype Kind = NewNotice | MaterialChange

  /** An inbox event with the view it was raised for; the stored row shows its title. */
  datatype Emission = Emission(kind: Kind, id: SourceId, view: NoticeView)

  datatype Stats = Stats(newNotices: nat, materialChanges: nat, same: nat)

  /** Unicode and whitespace normalisation is a parameter; an absent text compares as empty. */
  type Normalizer = string -> string

  function NormText(norm: Normalizer, value: Option<string>): string {
    if value.None? then "" else norm(value.value)
  }

  // ------------------------------------------------------------ material changes

  /** What a notice version says, as far as a subscriber must be told. */
  datatype Projection = Projection(
    deadline: Option<int>, budget: Option<int>, region: string, purchaser: string, scope: string,
    cancellation: bool, texts: seq<string>)

  function Material(norm: Normalizer, v: NoticeView): Projection {
    Projection(v.deadline, v.budgetMinorUnits, NormText(norm, v.region), NormText(norm, v.purchaser),
               NormText(norm, v.procurementScope), v.cancellation, v.claimSupportingTexts)
  }

  predicate Differs(norm: Normalizer, f: Field, a: NoticeView, b: NoticeView) {
    var p, q := Material(norm, a), Material(norm, b);
    match f
    case Deadline => p.deadline != q.deadline
    case Budget => p.budget != q.budget
    case Region => p.region != q.region
    case Purchaser => p.purchaser != q.purchaser
    case Scope => p.scope != q.scope
    case Cancellation => p.cancellation != q.cancellation
    case ClaimEvidence => p.texts != q.texts
  }

  /** The reporting order. */
  const FIELDS: seq<Field> := [Deadline, Budget, Region, Purchaser, Scope, Cancellation, ClaimEvidence]

  /** Those of the first `n` fields that differ, in order. */
  function Changed(norm: Normalizer, a: NoticeView, b: NoticeView, n: nat): seq<Field>
    requires n <= 7
  {
    if n == 0 then [] else Changed(norm, a, b, n - 1) + if Differs(norm, FIELDS[n - 1], a, b) then [FIELDS[n - 1]] else []
  }

  lemma {:induction false} ChangedMeans(norm: Normalizer, a: NoticeView, b: NoticeView, n: nat)
    requires n <= 7
    ensures forall f :: f in Changed(norm, a, b, n) <==> f in FIELDS[..n] && Differs(norm, f, a, b)
    ensures Distinct(Changed(norm, a, b, n))
  {
    if n > 0 {
      ChangedMeans(norm, a, b, n - 1);
      assert FIELDS[..n] == FIELDS[..n - 1] + [FIELDS[n - 1]];
      assert FIELDS[n - 1] !in FIELDS[..n - 1];
    }
  }

  /** Nothing is reported exactly when the two versions have the same material projection. */
  lemma NothingChanged(norm: Normalizer, a: NoticeView, b: NoticeView)
    ensures Changed(norm, a, b, 7) == [] <==> Material(norm, a) == Material(norm, b)
    ensures forall f :: f in Changed(norm, a, b, 7) <==> Differs(norm, f, a, b)
  {
    hide Changed;
    ChangedMeans(norm, a, b, 7);
    var all := FIELDS[..7];
    assert all[0] == Deadline && all[1] == Budget && all[2] == Region && all[3] == Purchaser;
    assert all[4] == Scope && all[5] == Cancellation && all[6] == ClaimEvidence;
    forall f: Field ensures f in all {
      match f
      case Deadline | Budget | Region | Purchaser | Scope | Cancellation | ClaimEvidence =>
    }
    if Changed(norm, a, b, 7) == [] {
      forall f: Field ensures !Differs(norm, f, a, b) {
        assert f !in Changed(norm, a, b, 7);
      }
      assert !Differs(norm, Deadline, a, b) && !Differs(norm, Budget, a, b) && !Differs(norm, Region, a, b);
      assert !Differs(norm, Purchaser, a, b) && !Differs(norm, Scope, a, b);
      assert !Differs(norm, Cancellation, a, b) && !Differs(norm, ClaimEvidence, a, b);
    } else {
      assert Differs(norm, Changed(norm, a, b, 7)[0], a, b);
    }
  }

  /** A reported change with both values as they are displayed. */
  datatype Change = Change(field: Field, before: string, after: string)

  /** How moments and whole numbers are written. */
  datatype Formats = Formats(moment: int -> string, number: int -> string)

  function OrEmpty(text: Option<string>): string { if text.Some? then text.value else "" }

  function ShownMoment(fmt: Formats, t: Option<int>): string { if t.Some? then fmt.moment(t.value) else "" }

  function ShownMoney(fmt: Formats, units: Option<int>, currency: Option<string>): string {
    if units.None? then ""
    else (if currency.None? || currency.value == "" then "CNY" else currency.value) + " " + fmt.number(units.value)
  }

  function ShownFlag(flag: bool): string { if flag then "True" else "False" }

  /** A field of a notice version as it is displayed. */
  function Shown(fmt: Formats, f: Field, v: NoticeView): string {
    match f
    case Deadline => ShownMoment(fmt, v.deadline)
    case Budget => ShownMoney(fmt, v.budgetMinorUnits, v.budgetCurrency)
    case Region => OrEmpty(v.region)
    case Purchaser => OrEmpty(v.purchaser)
    case Scope => OrEmpty(v.procurementScope)
    case Cancellation => ShownFlag(v.cancellation)
    case ClaimEvidence => Strings.Join(v.claimSupportingTexts, " | ")
  }

  function Described(fmt: Formats, fields: seq<Field>, a: NoticeView, b: NoticeView): seq<Change> {
    seq(|fields|, i requires 0 <= i < |fields| => Change(fields[i], Shown(fmt, fields[i], a), Shown(fmt, fields[i], b)))
  }

  /** The changes among the first `n` fields, as reported. */
  ghost predicate ReportsFirst(fmt: Formats, norm: Normalizer, a: NoticeView, b: NoticeView, n: nat, changes: seq<Change>)
    requires n <= 7
  {
    changes == Described(fmt, Changed(norm, a, b, n), a, b)
  }

  lemma ReportsNext(fmt: Formats, norm: Normalizer, a: NoticeView, b: NoticeView, n: nat, changes: seq<Change>)
    requires n < 7 && ReportsFirst(fmt, norm, a, b, n, changes)
    ensures
      var f := FIELDS[n];
      var more := if Differs(norm, f, a, b) then changes + [Change(f, Shown(fmt, f, a), Shown(fmt, f, b))] else changes;
      ReportsFirst(fmt, norm, a, b, n + 1, more)
  {
    hide Differs, Shown;
  }

  /** `changes` names field `f` exactly when `moved`, and then with these two texts only. */
  ghost predicate Reports(changes: seq<Change>, f: Field, moved: bool, before: string, after: string) {
    && (moved <==> Change(f, before, after) in changes)
    && (forall c :: c in changes && c.field == f ==> c == Change(f, before, after))
  }

  /** The place of a field in a report. */
  function Rank(f: Field): nat {
    match f
    case Deadline => 0
    case Budget => 1
    case Region => 2
    case Purchaser => 3
    case Scope => 4
    case Cancellation => 5
    case ClaimEvidence => 6
  }

  /** An amount in a report. */
  predicate Money(fmt: Formats, units: Option<int>, currency: Option<string>, text: string) {
    && (units.None? ==> text == "")
    && (units.Some? && (currency == None || currency == Some("")) ==> text == "CNY " + fmt.number(units.value))
    && (units.Some? && currency.Some? && currency != Some("") ==>
          text == currency.value + " " + fmt.number(units.value))
  }

  /** A report on two versions, read off their own fields: each of the seven is named exactly when it moved,
      with its old and its new text, in the reporting order. */
  ghost predicate TellsExactly(fmt: Formats, norm: Normalizer, a: NoticeView, b: NoticeView, changes: seq<Change>) {
    && Reports(changes, Deadline, a.deadline != b.deadline,
               if a.deadline.Some? then fmt.moment(a.deadline.value) else "",
               if b.deadline.Some? then fmt.moment(b.deadline.value) else "")
    && (exists from, to :: Money(fmt, a.budgetMinorUnits, a.budgetCurrency, from)
          && Money(fmt, b.budgetMinorUnits, b.budgetCurrency, to)
          && Reports(changes, Budget, a.budgetMinorUnits != b.budgetMinorUnits, from, to))
    && Reports(changes, Region, TextMoved(norm, a.region, b.region), TextOf(a.region), TextOf(b.region))
    && Reports(changes, Purchaser, TextMoved(norm, a.purchaser, b.purchaser), TextOf(a.purchaser), TextOf(b.purchaser))
    && Reports(changes, Scope, TextMoved(norm, a.procurementScope, b.procurementScope),
               TextOf(a.procurementScope), TextOf(b.procurementScope))
    && Reports(changes, Cancellation, a.cancellation != b.cancellation,
               if a.cancellation then "True" else "False", if b.cancellation then "True" else "False")
    && Reports(changes, ClaimEvidence, a.claimSupportingTexts != b.claimSupportingTexts,
               Strings.Join(a.claimSupportingTexts, " | "), Strings.Join(b.claimSupportingTexts, " | "))
    && (forall i, j :: 0 <= i < j < |changes| ==> Rank(changes[i].field) < Rank(changes[j].field))
  }

  /** Two optional texts differ once normalised; an absent one stands for the empty text. */
  predicate TextMoved(norm: Normalizer, a: Option<string>, b: Option<string>) {
    match (a, b)
    case (Some(s), Some(t)) => norm(s) != norm(t)
    case (Some(s), None) => norm(s) != ""
    case (None, Some(t)) => norm(t) != ""
    case (None, None) => false
  }

  /** An optional text as it stands. */
  function TextOf(text: Option<string>): string {
    match text
    case Some(s) => s
    case None => ""
  }

  /** The seven ways a version can differ from an earlier one so that a subscriber is told. */
  predicate MovedSomewhere(norm: Normalizer, a: NoticeView, b: NoticeView) {
    || a.deadline != b.deadline
    || a.budgetMinorUnits != b.budgetMinorUnits
    || TextMoved(norm, a.region, b.region)
    || TextMoved(norm, a.purchaser, b.purchaser)
    || TextMoved(norm, a.procurementScope, b.procurementScope)
    || a.cancellation != b.cancellation
    || a.claimSupportingTexts != b.claimSupportingTexts
  }

  lemma {:induction false} ChangedInOrder(norm: Normalizer, a: NoticeView, b: NoticeView, n: nat)
    requires n <= 7
    ensures forall f :: f in Changed(norm, a, b, n) ==> Rank(f) < n
    ensures InOrder(Changed(norm, a, b, n))
  {
    hide Differs;
    if n > 0 {
      ChangedInOrder(norm, a, b, n - 1);
      assert Rank(FIELDS[n - 1]) == n - 1;
      OneMore(Changed(norm, a, b, n - 1), FIELDS[n - 1]);
    }
  }

  predicate InOrder(fields: seq<Field>) {
    forall i, j :: 0 <= i < j < |fields| ==> Rank(fields[i]) < Rank(fields[j])
  }

  lemma OneMore(fields: seq<Field>, f: Field)
    requires InOrder(fields) && forall g :: g in fields ==> Rank(g) < Rank(f)
    ensures InOrder(fields + [f]) && InOrder(fields + [])
  {
    hide Rank;
    assert fields + [] == fields;
  }

  lemma FieldReported(fmt: Formats, norm: Normalizer, a: NoticeView, b: NoticeView, f: Field)
    ensures Reports(Described(fmt, Changed(norm, a, b, 7), a, b), f, Differs(norm, f, a, b), Shown(fmt, f, a), Shown(fmt, f, b))
  {
    hide Changed, Differs, Shown;
    NothingChanged(norm, a, b);
    var fs := Changed(norm, a, b, 7);
    if f in fs {
      var i :| 0 <= i < |fs| && fs[i] == f;
      assert Described(fmt, fs, a, b)[i] == Change(f, Shown(fmt, f, a), Shown(fmt, f, b));
    }
  }

  lemma DiffersOnFields(norm: Normalizer, a: NoticeView, b: NoticeView)
    ensures Differs(norm, Deadline, a, b) <==> a.deadline != b.deadline
    ensures Differs(norm, Budget, a, b) <==> a.budgetMinorUnits != b.budgetMinorUnits
    ensures Differs(norm, Region, a, b) <==> TextMoved(norm, a.region, b.region)
    ensures Differs(norm, Purchaser, a, b) <==> TextMoved(norm, a.purchaser, b.purchaser)
    ensures Differs(norm, Scope, a, b) <==> TextMoved(norm, a.procurementScope, b.procurementScope)
    ensures Differs(norm, Cancellation, a, b) <==> a.cancellation != b.cancellation
    ensures Differs(norm, ClaimEvidence, a, b) <==> a.claimSupportingTexts != b.claimSupportingTexts
  {
  }

  lemma ShownTexts(fmt: Formats, v: NoticeView)
    ensures Shown(fmt, Deadline, v) == if v.deadline.Some? then fmt.moment(v.deadline.value) else ""
    ensures Money(fmt, v.budgetMinorUnits, v.budgetCurrency, Shown(fmt, Budget, v))
    ensures Shown(fmt, Region, v) == TextOf(v.region)
    ensures Shown(fmt, Purchaser, v) == TextOf(v.purchaser)
    ensures Shown(fmt, Scope, v) == TextOf(v.procurementScope)
    ensures Shown(fmt, Cancellation, v) == if v.cancellation then "True" else "False"
    ensures Shown(fmt, ClaimEvidence, v) == Strings.Join(v.claimSupportingTexts, " | ")
  {
    hide Strings.Join;
  }

  lemma MaterialMoves(norm: Normalizer, a: NoticeView, b: NoticeView)
    ensures Material(norm, a) != Material(norm, b) <==> MovedSomewhere(norm, a, b)
  {
  }

  lemma ReportedInOrder(fmt: Formats, norm: Normalizer, a: NoticeView, b: NoticeView)
    ensures var changes := Described(fmt, Changed(norm, a, b, 7), a, b);
      forall i, j :: 0 <= i < j < |changes| ==> Rank(changes[i].field) < Rank(changes[j].field)
  {
    hide Changed, Described, Rank;
    ChangedInOrder(norm, a, b, 7);
    DescribedFields(fmt, Changed(norm, a, b, 7), a, b);
  }

  /** The report names what moved in the versions' own fields, and is empty when nothing moved. */
  lemma ReportIsExact(fmt: Formats, norm: Normalizer, a: NoticeView, b: NoticeView)
    ensures TellsExactly(fmt, norm, a, b, Described(fmt, Changed(norm, a, b, 7), a, b))
    ensures Described(fmt, Changed(norm, a, b, 7), a, b) != [] <==> MovedSomewhere(norm, a, b)
  {
    hide Changed, Described, Reports, Differs, Shown, TextMoved, TextOf, Money, Material, MovedSomewhere, Strings.Join, Rank;
    FieldReported(fmt, norm, a, b, Deadline);
    FieldReported(fmt, norm, a, b, Budget);
    FieldReported(fmt, norm, a, b, Region);
    FieldReported(fmt, norm, a, b, Purchaser);
    FieldReported(fmt, norm, a, b, Scope);
    FieldReported(fmt, norm, a, b, Cancellation);
    FieldReported(fmt, norm, a, b, ClaimEvidence);
    DiffersOnFields(norm, a, b);
    ShownTexts(fmt, a);
    ShownTexts(fmt, b);
    ReportedInOrder(fmt, norm, a, b);
    NothingChanged(norm, a, b);
    MaterialMoves(norm, a, b);
    DescribedFields(fmt, Changed(norm, a, b, 7), a, b);
  }

  lemma DescribedFields(fmt: Formats, fields: seq<Field>, a: NoticeView, b: NoticeView)
    ensures |Described(fmt, fields, a, b)| == |fields|
    ensures forall i :: 0 <= i < |fields| ==> Described(fmt, fields, a, b)[i].field == fields[i]
  {
  }

  /** `detect_material_changes`: exactly the changed fields, in the reporting order, each with the old and
      the new value as displayed; none exactly when the two versions have the same material projection. */
  method DetectMaterialChanges(fmt: Formats, norm: Normalizer, before: NoticeView, after: NoticeView)
    returns (changes: seq<Change>)
    ensures changes == Described(fmt, Changed(norm, before, after, 7), before, after)
    ensures forall f :: f in Changed(norm, before, after, 7) <==> Differs(norm, f, before, after)
    ensures changes == [] <==> Material(norm, before) == Material(norm, after)
    ensures TellsExactly(fmt, norm, before, after, changes)
    ensures changes != [] <==> MovedSomewhere(norm, before, after)
  {
    hide TellsExactly, MovedSomewhere, ReportsFirst, Strings.Join, ShownMoney, ShownMoment, ShownFlag, OrEmpty;
    changes := [];
    NothingReported(fmt, norm, before, after);
    ReportsNext(fmt, norm, before, after, 0, changes);
    if before.deadline != after.deadline {
      changes := changes + [Change(Deadline, ShownMoment(fmt, before.deadline), ShownMoment(fmt, after.deadline))];
    }
    assert ReportsFirst(fmt, norm, before, after, 1, changes);
    ReportsNext(fmt, norm, before, after, 1, changes);
    if before.budgetMinorUnits != after.budgetMinorUnits {
      changes := changes + [Change(Budget, ShownMoney(fmt, before.budgetMinorUnits, before.budgetCurrency),
                                   ShownMoney(fmt, after.budgetMinorUnits, after.budgetCurrency))];
    }
    assert ReportsFirst(fmt, norm, before, after, 2, changes);
    ReportsNext(fmt, norm, before, after, 2, changes);
    if NormText(norm, before.region) != NormText(norm, after.region) {
      changes := changes + [Change(Region, OrEmpty(before.region), OrEmpty(after.region))];
    }
    assert ReportsFirst(fmt, norm, before, after, 3, changes);
    ReportsNext(fmt, norm, before, after, 3, changes);
    if NormText(norm, before.purchaser) != NormText(norm, after.purchaser) {
      changes := changes + [Change(Purchaser, OrEmpty(before.purchaser), OrEmpty(after.purchaser))];
    }
    assert ReportsFirst(fmt, norm, before, after, 4, changes);
    ReportsNext(fmt, norm, before, after, 4, changes);
    if NormText(norm, before.procurementScope) != NormText(norm, after.procurementScope) {
      changes := changes + [Change(Scope, OrEmpty(before.procurementScope), OrEmpty(after.procurementScope))];
    }
    assert ReportsFirst(fmt, norm, before, after, 5, changes);
    ReportsNext(fmt, norm, before, after, 5, changes);
    if before.cancellation != after.cancellation {
      changes := changes + [Change(Cancellation, ShownFlag(before.cancellation), ShownFlag(after.cancellation))];
    }
    assert ReportsFirst(fmt, norm, before, after, 6, changes);
    ReportsNext(fmt, norm, before, after, 6, changes);
    if before.claimSupportingTexts != after.claimSupportingTexts {
      changes := changes + [Change(ClaimEvidence, Strings.Join(before.claimSupportingTexts, " | "),
                                   Strings.Join(after.claimSupportingTexts, " | "))];
    }
    assert ReportsFirst(fmt, norm, before, after, 7, changes);
    AllReported(fmt, norm, before, after, changes);
    ReportIsExact(fmt, norm, before, after);
  }

  lemma NothingReported(fmt: Formats, norm: Normalizer, a: NoticeView, b: NoticeView)
    ensures ReportsFirst(fmt, norm, a, b, 0, [])
  {
  }

  lemma AllReported(fmt: Formats, norm: Normalizer, a: NoticeView, b: NoticeView, changes: seq<Change>)
    requires ReportsFirst(fmt, norm, a, b, 7, changes)
    ensures changes == Described(fmt, Changed(norm, a, b, 7), a, b)
    ensures forall f :: f in Changed(norm, a, b, 7) <==> Differs(norm, f, a, b)
    ensures changes == [] <==> Material(norm, a) == Material(norm, b)
  {
    hide Differs, Changed, Material;
    NothingChanged(norm, a, b);
  }

  // ------------------------------------------------------------ stored versions

  /** The versions of every source notice, oldest first. */
  type Versions = map<SourceId, seq<NoticeView>>

  /** A notice has one version per content hash. */
  ghost predicate HashesUnique(versions: Versions) {
    forall id :: id in versions ==>
      forall i, j :: 0 <= i < j < |versions[id]| ==> versions[id][i].contentHash != versions[id][j].contentHash
  }

  /** Versions are only ever added. */
  ghost predicate OnlyAdds(versions: Versions, versions': Versions) {
    forall id :: id in versions ==> id in versions' && versions[id] <= versions'[id]
  }

  /** The version a seen hash stands for, if it is still stored. */
  function Lookup(history: seq<NoticeView>, hash: Hash): (r: Option<NoticeView>)
    ensures r.Some? ==> r.value in history && r.value.contentHash == hash
    ensures r.None? ==> forall v :: v in history ==> v.contentHash != hash
  {
    if history == [] then None
    else if history[|history| - 1].contentHash == hash then Some(history[|history| - 1])
    else Lookup(history[..|history| - 1], hash)
  }

  lemma LookupOf(history: seq<NoticeView>, v: NoticeView)
    requires v in history
    requires forall i, j :: 0 <= i < j < |history| ==> history[i].contentHash != history[j].contentHash
    ensures Lookup(history, v.contentHash) == Some(v)
  {
  }

  /** The previously seen view of a notice, as `_load_seen_views` rebuilds it. */
  function SeenView(versions: Versions, seen: map<SourceId, Hash>, id: SourceId): Option<NoticeView> {
    if id in seen && id in versions then Lookup(versions[id], seen[id]) else None
  }

  /** One match per source notice, each the latest stored version. */
  ghost predicate Latest(versions: Versions, notices: seq<Match>) {
    && (forall i, j :: 0 <= i < j < |notices| ==> notices[i].id != notices[j].id)
    && (forall m :: m in notices ==>
          m.id in versions && versions[m.id] != [] && m.view == versions[m.id][|versions[m.id]| - 1])
  }

  // ------------------------------------------------------------ the cycle as functions

  datatype Verdict = IsNew | IsMaterial | IsUnchanged

  function Classify(norm: Normalizer, previous: Option<NoticeView>, view: NoticeView): Verdict {
    if previous.None? then IsNew
    else if previous.value.contentHash != view.contentHash && Material(norm, previous.value) != Material(norm, view)
    then IsMaterial
    else IsUnchanged
  }

  function Emit(norm: Normalizer, previous: Option<NoticeView>, m: Match): seq<Emission> {
    match Classify(norm, previous, m.view)
    case IsNew => [Emission(NewNotice, m.id, m.view)]
    case IsMaterial => [Emission(MaterialChange, m.id, m.view)]
    case IsUnchanged => []
  }

  /** The inbox events of one cycle. */
  function Emissions(norm: Normalizer, versions: Versions, seen: map<SourceId, Hash>, notices: seq<Match>)
    : seq<Emission>
  {
    if notices == [] then []
    else
      var last := notices[|notices| - 1];
      Emissions(norm, versions, seen, notices[..|notices| - 1]) + Emit(norm, SeenView(versions, seen, last.id), last)
  }

  /** The seen cursor after one cycle. */
  function Advanced(seen: map<SourceId, Hash>, notices: seq<Match>): map<SourceId, Hash> {
    if notices == [] then seen
    else
      var last := notices[|notices| - 1];
      Advanced(seen, notices[..|notices| - 1])[last.id := last.view.contentHash]
  }

  function Count(norm: Normalizer, versions: Versions, seen: map<SourceId, Hash>, notices: seq<Match>, v: Verdict): nat {
    if notices == [] then 0
    else
      var last := notices[|notices| - 1];
      Count(norm, versions, seen, notices[..|notices| - 1], v)
        + (if Classify(norm, SeenView(versions, seen, last.id), last.view) == v then 1 else 0)
  }

  lemma NothingDiffed(norm: Normalizer, versions: Versions, seen: map<SourceId, Hash>, notices: seq<Match>)
    ensures Emissions(norm, versions, seen, notices[..0]) == []
    ensures forall v :: Count(norm, versions, seen, notices[..0], v) == 0
  {
  }

  lemma NoticeDiffed(norm: Normalizer, versions: Versions, seen: map<SourceId, Hash>, notices: seq<Match>, i: nat)
    requires i < |notices|
    ensures Emissions(norm, versions, seen, notices[..i + 1]) ==
            Emissions(norm, versions, seen, notices[..i]) + Emit(norm, SeenView(versions, seen, notices[i].id), notices[i])
    ensures forall v ::
      Count(norm, versions, seen, notices[..i + 1], v) ==
      Count(norm, versions, seen, notices[..i], v)
      + (if Classify(norm, SeenView(versions, seen, notices[i].id), notices[i].view) == v then 1 else 0)
  {
    assert notices[..i + 1][..i] == notices[..i];
  }

  // ------------------------------------------------------------ what a cycle tells

  /** How many events of a kind there are. */
  function OfKind(events: seq<Emission>, kind: Kind): nat {
    if events == [] then 0
    else OfKind(events[..|events| - 1], kind) + (if events[|events| - 1].kind == kind then 1 else 0)
  }

  lemma OfKindAppend(events: seq<Emission>, e: Emission, kind: Kind)
    ensures OfKind(events + [e], kind) == OfKind(events, kind) + (if e.kind == kind then 1 else 0)
  {
    assert (events + [e])[..|events|] == events;
  }

  /** The counters of a cycle are the numbers of its events of each kind. */
  lemma {:induction false} CountsAreEvents(norm: Normalizer, versions: Versions, seen: map<SourceId, Hash>, notices: seq<Match>)
    ensures
      var events := Emissions(norm, versions, seen, notices);
      && Count(norm, versions, seen, notices, IsNew) == OfKind(events, NewNotice)
      && Count(norm, versions, seen, notices, IsMaterial) == OfKind(events, MaterialChange)
  {
    if notices != [] {
      var front, last := notices[..|notices| - 1], notices[|notices| - 1];
      CountsAreEvents(norm, versions, seen, front);
      var more, one := Emissions(norm, versions, seen, front), Emit(norm, SeenView(versions, seen, last.id), last);
      if one == [] {
        assert more + one == more;
      } else {
        OfKindAppend(more, one[0], NewNotice);
        OfKindAppend(more, one[0], MaterialChange);
      }
    }
  }

  /** An event of a cycle was raised for one of its notices, and what is raised depends on that notice alone. */
  lemma {:induction false} RaisedFor(norm: Normalizer, versions: Versions, seen: map<SourceId, Hash>,
                                     notices: seq<Match>, e: Emission)
    ensures e in Emissions(norm, versions, seen, notices) <==>
      Match(e.id, e.view) in notices && e in Emit(norm, SeenView(versions, seen, e.id), Match(e.id, e.view))
  {
    if notices != [] {
      var front, last := notices[..|notices| - 1], notices[|notices| - 1];
      RaisedFor(norm, versions, seen, front, e);
      assert notices == front + [last];
    }
  }

  /** Events stand in the order of their notices. */
  lemma {:induction false} RaisedInOrder(norm: Normalizer, versions: Versions, seen: map<SourceId, Hash>,
                                         notices: seq<Match>, k: nat)
    requires k <= |notices|
    ensures Emissions(norm, versions, seen, notices[..k]) <= Emissions(norm, versions, seen, notices)
  {
    if k == |notices| {
      assert notices[..k] == notices;
    } else {
      var front := notices[..|notices| - 1];
      RaisedInOrder(norm, versions, seen, front, k);
      assert front[..k] == notices[..k];
    }
  }

  /** A notice whose seen hash stands for the stored version `known`: it is told as changed exactly when its
      content hash and at least one of the seven watched fields moved, and it is never told as new. */
  lemma KnownIsToldExactlyWhenMoved(norm: Normalizer, versions: Versions, seen: map<SourceId, Hash>,
                                    notices: seq<Match>, m: Match, known: NoticeView)
    requires HashesUnique(versions) && m in notices
    requires m.id in seen && m.id in versions && known in versions[m.id] && known.contentHash == seen[m.id]
    ensures
      var events := Emissions(norm, versions, seen, notices);
      && (Emission(MaterialChange, m.id, m.view) in events
          <==> known.contentHash != m.view.contentHash && MovedSomewhere(norm, known, m.view))
      && Emission(NewNotice, m.id, m.view) !in events
  {
    hide MovedSomewhere, Material;
    LookupOf(versions[m.id], known);
    MaterialMoves(norm, known, m.view);
    RaisedFor(norm, versions, seen, notices, Emission(MaterialChange, m.id, m.view));
    RaisedFor(norm, versions, seen, notices, Emission(NewNotice, m.id, m.view));
  }

  /** A notice never seen, or whose seen version is no longer stored, is told as new and only as new. */
  lemma UnknownIsToldAsNew(norm: Normalizer, versions: Versions, seen: map<SourceId, Hash>, notices: seq<Match>, m: Match)
    requires m in notices
    requires m.id !in seen || m.id !in versions || forall v :: v in versions[m.id] ==> v.contentHash != seen[m.id]
    ensures
      var events := Emissions(norm, versions, seen, notices);
      Emission(NewNotice, m.id, m.view) in events && Emission(MaterialChange, m.id, m.view) !in events
  {
    hide Material;
    RaisedFor(norm, versions, seen, notices, Emission(MaterialChange, m.id, m.view));
    RaisedFor(norm, versions, seen, notices, Emission(NewNotice, m.id, m.view));
  }

  /** After a cycle a notice's cursor is the hash of its last match. */
  lemma {:induction false} CursorIsLastMatch(seen: map<SourceId, Hash>, notices: seq<Match>, k: nat)
    requires k < |notices| && forall j :: k < j < |notices| ==> notices[j].id != notices[k].id
    ensures
      var cursor := Advanced(seen, notices);
      notices[k].id in cursor && cursor[notices[k].id] == notices[k].view.contentHash
  {
    if k < |notices| - 1 {
      CursorIsLastMatch(seen, notices[..|notices| - 1], k);
    }
  }

  /** A notice without a match keeps its cursor. */
  lemma {:induction false} CursorStays(seen: map<SourceId, Hash>, notices: seq<Match>, id: SourceId)
    requires forall m :: m in notices ==> m.id != id
    ensures id in Advanced(seen, notices) <==> id in seen
    ensures id in seen ==> Advanced(seen, notices)[id] == seen[id]
  {
    if notices != [] {
      CursorStays(seen, notices[..|notices| - 1], id);
    }
  }

  // ------------------------------------------------------------ the cycle on mutable rows

  /** The seen items and the inbox of one subscription. */
  class Subscriber {
    var seen: map<SourceId, Hash>
    var inbox: seq<Emission>

    constructor ()
      ensures seen == map[] && inbox == []
    {
      seen, inbox := map[], [];
    }

    /** `_load_seen_views`. */
    method LoadSeenViews(versions: Versions) returns (views: map<SourceId, NoticeView>)
      ensures forall id :: id in views <==> SeenView(versions, seen, id).Some?
      ensures forall id :: id in views ==> views[id] == SeenView(versions, seen, id).value
    {
      views := map[];
      var todo := seen.Keys;
      while todo != {}
        invariant todo <= seen.Keys
        invariant forall id :: id in views <==> id !in todo && SeenView(versions, seen, id).Some?
        invariant forall id :: id in views ==> views[id] == SeenView(versions, seen, id).value
        decreases todo
      {
        var id :| id in todo;
        if id in versions {
          var version := Lookup(versions[id], seen[id]);
          if version.Some? {
            views := views[id := version.value];
          }
        }
        todo := todo - {id};
      }
    }

    /** `_diff_and_emit`: one pass over the notices; the three counters add up to their number. */
    method DiffAndEmit(fmt: Formats, norm: Normalizer, versions: Versions, notices: seq<Match>) returns (stats: Stats)
      modifies this`inbox
      ensures inbox == old(inbox) + Emissions(norm, versions, seen, notices)
      ensures stats == Stats(Count(norm, versions, seen, notices, IsNew),
                             Count(norm, versions, seen, notices, IsMaterial),
                             Count(norm, versions, seen, notices, IsUnchanged))
      ensures stats.newNotices + stats.materialChanges + stats.same == |notices|
      ensures
        var raised := inbox[|old(inbox)|..];
        stats.newNotices == OfKind(raised, NewNotice) && stats.materialChanges == OfKind(raised, MaterialChange)
    {
      hide TellsExactly, MovedSomewhere, OfKind, Emissions, Count, Changed, SeenView;
      var previousViews := LoadSeenViews(versions);
      NothingDiffed(norm, versions, seen, notices);
      var newNotices, materialChanges, same := 0, 0, 0;
      var i := 0;
      while i < |notices|
        invariant 0 <= i <= |notices|
        invariant inbox == old(inbox) + Emissions(norm, versions, seen, notices[..i])
        invariant newNotices == Count(norm, versions, seen, notices[..i], IsNew)
        invariant materialChanges == Count(norm, versions, seen, notices[..i], IsMaterial)
        invariant same == Count(norm, versions, seen, notices[..i], IsUnchanged)
        invariant newNotices + materialChanges + same == i
      {
        var m := notices[i];
        NoticeDiffed(norm, versions, seen, notices, i);
        if m.id !in previousViews {
          newNotices := newNotices + 1;
          inbox := inbox + [Emission(NewNotice, m.id, m.view)];
        } else if previousViews[m.id].contentHash != m.view.contentHash {
          var changes := DetectMaterialChanges(fmt, norm, previousViews[m.id], m.view);
          if changes != [] {
            materialChanges := materialChanges + 1;
            inbox := inbox + [Emission(MaterialChange, m.id, m.view)];
          } else {
            same := same + 1;
          }
        } else {
          same := same + 1;
        }
        i := i + 1;
      }
      assert notices[..i] == notices;
      stats := Stats(newNotices, materialChanges, same);
      CountsAreEvents(norm, versions, seen, notices);
      assert inbox[|old(inbox)|..] == Emissions(norm, versions, seen, notices);
    }

    /** `_advance_seen`. */
    method AdvanceSeen(notices: seq<Match>)
      modifies this`seen
      ensures seen == Advanced(old(seen), notices)
    {
      var i := 0;
      while i < |notices|
        invariant 0 <= i <= |notices|
        invariant seen == Advanced(old(seen), notices[..i])
      {
        assert notices[..i + 1][..i] == notices[..i];
        seen := seen[notices[i].id := notices[i].view.contentHash];
        i := i + 1;
      }
      assert notices[..i] == notices;
    }
  }
}
