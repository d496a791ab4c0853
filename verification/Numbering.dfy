/**
 * Document numbers: the counter upsert every numbered document claims from
 * (claimSequence of src/modules/invoices/invoices.repository.ts and its copies),
 * interleaved by transactions that commit or roll back, and the printed number.
 */
module Numbering {
  import opened Text
  import opened Decimals

  /** A row of document_sequences: the tenant, the kind of document and the fiscal year it starts in. */
  datatype Series = Series(tenant: nat, kind: Kind, startYear: nat)

  datatype Kind = Invoice | Expense | Receipt | Contract | Proforma

  /** A document and the number it was given. */
  datatype Document = Document(series: Series, number: nat)

  type TxnId = nat

  /**
   * Committed counters and documents, and each open transaction with its
   * documents. The upsert locks the counter's row until the transaction ends.
   */
  datatype System = System(
    last: map<Series, nat>,
    documents: seq<Document>,
    holder: map<Series, TxnId>,
    open: map<TxnId, seq<Document>>)

  datatype Action = Begin(t: TxnId) | Claim(t: TxnId, series: Series) | Commit(t: TxnId) | Rollback(t: TxnId)

  const START := System(map[], [], map[], map[])

  function LastOf(last: map<Series, nat>, series: Series): nat {
    if series in last then last[series] else 0
  }

  /** The numbers given in a series, in order. */
  function NumbersOf(documents: seq<Document>, series: Series): seq<nat> {
    if documents == [] then []
    else
      var d := documents[|documents| - 1];
      NumbersOf(documents[..|documents| - 1], series) + (if d.series == series then [d.number] else [])
  }

  /** What the counter row reads inside transaction `t`: its own claims count. */
  function ValueInside(s: System, t: TxnId, series: Series): nat
    requires t in s.open
  {
    LastOf(s.last, series) + |NumbersOf(s.open[t], series)|
  }

  predicate Enabled(s: System, a: Action) {
    match a
    case Begin(t) => t !in s.open
    case Claim(t, series) => t in s.open && (series in s.holder ==> s.holder[series] == t)
    case Commit(t) => t in s.open
    case Rollback(t) => t in s.open
  }

  function Released(holder: map<Series, TxnId>, t: TxnId): map<Series, TxnId> {
    map series | series in holder && holder[series] != t :: holder[series]
  }

  /** The counters once `t` commits: every row it locked, at the value it left there. */
  function Advanced(s: System, t: TxnId): map<Series, nat>
    requires t in s.open
  {
    s.last + map series | series in s.holder && s.holder[series] == t :: ValueInside(s, t, series)
  }

  function Next(s: System, a: Action): System
    requires Enabled(s, a)
  {
    match a
    case Begin(t) => s.(open := s.open[t := []])
    case Claim(t, series) =>
      var claimed := ValueInside(s, t, series) + 1;
      s.(holder := s.holder[series := t], open := s.open[t := s.open[t] + [Document(series, claimed)]])
    case Commit(t) => System(Advanced(s, t), s.documents + s.open[t], Released(s.holder, t), s.open - {t})
    case Rollback(t) => s.(holder := Released(s.holder, t), open := s.open - {t})
  }

  // ----- gapless -----

  function UpTo(from: nat, n: nat): seq<nat> {
    seq(n, k requires 0 <= k < n => from + k + 1)
  }

  /** Committed documents are numbered 1 to the counter. */
  ghost predicate DocumentsOk(s: System) {
    forall series :: SeriesOk(s, series)
  }

  predicate SeriesOk(s: System, series: Series) {
    NumbersOf(s.documents, series) == UpTo(0, LastOf(s.last, series))
  }

  /** An open transaction has the numbers just after the counter. */
  ghost predicate OpenOk(s: System) {
    forall t, series :: t in s.open ==> OwnNumbersOk(s, t, series)
  }

  predicate OwnNumbersOk(s: System, t: TxnId, series: Series)
    requires t in s.open
  {
    NumbersOf(s.open[t], series) == UpTo(LastOf(s.last, series), |NumbersOf(s.open[t], series)|)
  }

  /** Whoever has numbered a document in a series holds its counter. */
  ghost predicate LocksOk(s: System) {
    && (forall t, series :: t in s.open && NumbersOf(s.open[t], series) != [] ==> series in s.holder && s.holder[series] == t)
    && (forall series :: series in s.holder ==> s.holder[series] in s.open)
  }

  ghost predicate Inv(s: System) {
    DocumentsOk(s) && OpenOk(s) && LocksOk(s)
  }

  lemma {:induction false} NumbersConcat(a: seq<Document>, b: seq<Document>, series: Series)
    ensures NumbersOf(a + b, series) == NumbersOf(a, series) + NumbersOf(b, series)
  {
    if b == [] {
      assert a + b == a && NumbersOf(a, series) + [] == NumbersOf(a, series);
    } else {
      assert (a + b)[..|a + b| - 1] == a + b[..|b| - 1];
      NumbersConcat(a, b[..|b| - 1], series);
    }
  }

  lemma {:induction false} NumberAdded(documents: seq<Document>, d: Document, series: Series)
    ensures NumbersOf(documents + [d], series) == NumbersOf(documents, series) + (if d.series == series then [d.number] else [])
  {
    assert (documents + [d])[..|documents|] == documents;
  }

  lemma {:induction false} ClaimKeepsOwn(s: System, t: TxnId, series: Series, u: TxnId, other: Series)
    requires Inv(s) && Enabled(s, Claim(t, series)) && u in s.open
    ensures var s' := Next(s, Claim(t, series));
            && OwnNumbersOk(s', u, other)
            && (NumbersOf(s'.open[u], other) != [] ==> other in s'.holder && s'.holder[other] == u)
  {
    assert OwnNumbersOk(s, u, other);
    if u == t {
      OwnGrow(s.open[t], Document(series, ValueInside(s, t, series) + 1), other, LastOf(s.last, other));
    }
  }

  /** One more document numbers its own series on, and no other. */
  lemma {:induction false} OwnGrow(own: seq<Document>, d: Document, series: Series, last: nat)
    requires NumbersOf(own, series) == UpTo(last, |NumbersOf(own, series)|)
    requires d.series == series ==> d.number == last + |NumbersOf(own, series)| + 1
    ensures NumbersOf(own + [d], series) == UpTo(last, |NumbersOf(own + [d], series)|)
    ensures d.series != series ==> NumbersOf(own + [d], series) == NumbersOf(own, series)
  {
    NumberAdded(own, d, series);
    assert NumbersOf(own, series) + [] == NumbersOf(own, series);
  }

  lemma {:induction false} ClaimKeeps(s: System, t: TxnId, series: Series)
    requires Inv(s) && Enabled(s, Claim(t, series))
    ensures Inv(Next(s, Claim(t, series)))
  {
    var s' := Next(s, Claim(t, series));
    forall u, other | u in s'.open
      ensures OwnNumbersOk(s', u, other)
      ensures NumbersOf(s'.open[u], other) != [] ==> other in s'.holder && s'.holder[other] == u
    {
      ClaimKeepsOwn(s, t, series, u, other);
    }
    forall other ensures SeriesOk(s', other) {
      assert SeriesOk(s, other);
    }
  }

  /** Whatever a transaction did not lock, it did not number. */
  lemma {:induction false} CommitMoves(s: System, t: TxnId, series: Series)
    requires Inv(s) && t in s.open
    ensures LastOf(Advanced(s, t), series) == LastOf(s.last, series) + |NumbersOf(s.open[t], series)|
  {
    if !(series in s.holder && s.holder[series] == t) {
      assert NumbersOf(s.open[t], series) == [];
    }
  }

  lemma {:induction false} UpToGoesOn(m: nat, n: nat)
    ensures UpTo(0, m) + UpTo(m, n) == UpTo(0, m + n)
  {
  }

  lemma {:induction false} CommitKeepsSeries(s: System, t: TxnId, series: Series)
    requires Inv(s) && Enabled(s, Commit(t))
    ensures SeriesOk(Next(s, Commit(t)), series)
  {
    assert SeriesOk(s, series) && OwnNumbersOk(s, t, series);
    CommitMoves(s, t, series);
    NumbersConcat(s.documents, s.open[t], series);
    UpToGoesOn(LastOf(s.last, series), |NumbersOf(s.open[t], series)|);
  }

  lemma {:induction false} CommitKeepsOthers(s: System, t: TxnId, u: TxnId, series: Series)
    requires Inv(s) && Enabled(s, Commit(t)) && u in s.open && u != t
    ensures OwnNumbersOk(Next(s, Commit(t)), u, series)
  {
    CommitMoves(s, t, series);
    assert OwnNumbersOk(s, u, series);
    if NumbersOf(s.open[u], series) == [] {
      assert UpTo(LastOf(Advanced(s, t), series), 0) == [];
    } else {
      assert s.holder[series] == u;
    }
  }

  lemma {:induction false} CommitKeeps(s: System, t: TxnId)
    requires Inv(s) && Enabled(s, Commit(t))
    ensures Inv(Next(s, Commit(t)))
  {
    var s' := Next(s, Commit(t));
    forall series ensures SeriesOk(s', series) {
      CommitKeepsSeries(s, t, series);
    }
    forall u, series | u in s'.open ensures OwnNumbersOk(s', u, series) {
      CommitKeepsOthers(s, t, u, series);
    }
  }

  /** Neither counters nor committed documents change when a transaction begins or rolls back. */
  lemma {:induction false} OpenKeeps(s: System, a: Action)
    requires Inv(s) && Enabled(s, a) && (a.Begin? || a.Rollback?)
    ensures OpenOk(Next(s, a))
  {
    var s' := Next(s, a);
    forall u, series | u in s'.open ensures OwnNumbersOk(s', u, series) {
      assert u in s.open ==> OwnNumbersOk(s, u, series);
    }
  }

  lemma {:induction false} SeriesStay(s: System, a: Action)
    requires Inv(s) && Enabled(s, a) && (a.Begin? || a.Rollback?)
    ensures DocumentsOk(Next(s, a))
  {
    forall series ensures SeriesOk(Next(s, a), series) {
      assert SeriesOk(s, series);
    }
  }

  lemma {:induction false} StepKeeps(s: System, a: Action)
    requires Inv(s) && Enabled(s, a)
    ensures Inv(Next(s, a))
  {
    match a {
      case Claim(t, series) => ClaimKeeps(s, t, series);
      case Commit(t) => CommitKeeps(s, t);
      case _ =>
        OpenKeeps(s, a);
        SeriesStay(s, a);
    }
  }

  ghost predicate IsRun(states: seq<System>, actions: seq<Action>) {
    && |states| == |actions| + 1 && states[0] == START
    && forall k :: 0 <= k < |actions| ==> Enabled(states[k], actions[k]) && states[k + 1] == Next(states[k], actions[k])
  }

  lemma {:induction false} RunsKeepInv(states: seq<System>, actions: seq<Action>)
    requires IsRun(states, actions)
    ensures Inv(states[|actions|])
    decreases |actions|
  {
    if actions != [] {
      var n := |actions| - 1;
      assert IsRun(states[..n + 1], actions[..n]);
      RunsKeepInv(states[..n + 1], actions[..n]);
      StepKeeps(states[n], actions[n]);
    }
  }

  /**
   * Gapless: in every interleaving the committed documents of a series are
   * numbered 1, 2, ... up to its counter, in the order they were committed.
   */
  lemma {:induction false} NumbersAreGapless(states: seq<System>, actions: seq<Action>, series: Series)
    requires IsRun(states, actions)
    ensures var s := states[|actions|]; NumbersOf(s.documents, series) == UpTo(0, LastOf(s.last, series))
  {
    RunsKeepInv(states, actions);
    assert SeriesOk(states[|actions|], series);
  }

  /** The state once `t` has numbered a first document and nothing else. */
  function ClaimedOnce(s: System, t: TxnId, series: Series): System {
    System(s.last, s.documents, s.holder[series := t], s.open[t := [Document(series, LastOf(s.last, series) + 1)]])
  }

  lemma {:induction false} ClaimsOnce(s: System, t: TxnId, series: Series)
    requires t !in s.open && series !in s.holder
    ensures Enabled(s, Begin(t)) && Enabled(Next(s, Begin(t)), Claim(t, series))
    ensures Next(Next(s, Begin(t)), Claim(t, series)) == ClaimedOnce(s, t, series)
  {
    var begun := Next(s, Begin(t));
    assert NumbersOf(begun.open[t], series) == [];
    assert [] + [Document(series, LastOf(s.last, series) + 1)] == [Document(series, LastOf(s.last, series) + 1)];
  }

  lemma {:induction false} LocksAreReleased(holder: map<Series, TxnId>, t: TxnId, series: Series)
    requires series !in holder && forall other :: other in holder ==> holder[other] != t
    ensures Released(holder[series := t], t) == holder
  {
  }

  lemma {:induction false} CounterAdvances(s: System, t: TxnId, series: Series)
    requires forall other :: other in s.holder ==> s.holder[other] != t
    ensures Advanced(ClaimedOnce(s, t, series), t) == s.last[series := LastOf(s.last, series) + 1]
  {
    var claimed, d := ClaimedOnce(s, t, series), Document(series, LastOf(s.last, series) + 1);
    assert claimed.open[t] == [d] && [d][..0] == [];
    assert NumbersOf([d], series) == NumbersOf([], series) + [d.number];
    assert |NumbersOf(claimed.open[t], series)| == 1;
  }

  /** A document on its own gets the next number, and keeps it or, rolled back, leaves everything as it was. */
  lemma {:induction false} OneGoesThrough(s: System, t: TxnId, series: Series)
    requires t !in s.open && series !in s.holder && forall other :: other in s.holder ==> s.holder[other] != t
    ensures Enabled(s, Begin(t)) && Enabled(Next(s, Begin(t)), Claim(t, series))
    ensures var claimed := Next(Next(s, Begin(t)), Claim(t, series));
            var number := LastOf(s.last, series) + 1;
            && Enabled(claimed, Commit(t)) && Enabled(claimed, Rollback(t))
            && Next(claimed, Commit(t)) == System(s.last[series := number], s.documents + [Document(series, number)], s.holder, s.open)
            && Next(claimed, Rollback(t)) == s
  {
    ClaimsOnce(s, t, series);
    LocksAreReleased(s.holder, t, series);
    CounterAdvances(s, t, series);
    assert ClaimedOnce(s, t, series).open - {t} == s.open;
  }

  // ----- the upsert -----

  class DocumentSequences {
    var last: map<Series, nat>

    constructor ()
      ensures last == map[]
    {
      last := map[];
    }

    /** `claimSequence` on its own: the first claim inserts 1, every later one adds 1. */
    method ClaimSequence(series: Series) returns (claimed: nat)
      modifies this
      ensures claimed == LastOf(old(last), series) + 1
      ensures last == old(last)[series := claimed]
    {
      if series in last {
        last := last[series := last[series] + 1];
      } else {
        last := last[series := 1];
      }
      return last[series];
    }
  }

  // ----- the printed number -----

  function Prefix(kind: Kind): string {
    match kind
    case Invoice => "INV"
    case Expense => "EXP"
    case Receipt => "RCT"
    case Contract => "CNT"
    case Proforma => "PF"
  }

  /** padStart(width, '0'). */
  function Padded(s: string, width: nat): string
    decreases width - |s|
  {
    if |s| >= width then s else Padded("0" + s, width)
  }

  /** The fiscal year's label, its '/' already made '-'. */
  function SafeLabel(startYear: nat): string {
    "FY" + Digits(startYear) + "-" + Padded(Digits((startYear + 1) % 100), 2)
  }

  function PrintedNumber(d: Document): string {
    Prefix(d.series.kind) + "-" + SafeLabel(d.series.startYear) + "-" + Padded(Digits(d.number), 4)
  }

  lemma {:induction false} PaddingIsZeros(s: string, width: nat)
    requires AllDigits(s)
    ensures AllDigits(Padded(s, width)) && DigitsValue(Padded(s, width)) == DigitsValue(s)
    decreases width - |s|
  {
    if |s| < width {
      LeadingZero(s);
      PaddingIsZeros("0" + s, width);
    }
  }

  lemma {:induction false} LeadingZero(s: string)
    requires AllDigits(s)
    ensures AllDigits("0" + s) && DigitsValue("0" + s) == DigitsValue(s)
  {
    if s == "" {
      assert "0" + s == "0" && "0"[..0] == "";
    } else {
      assert ("0" + s)[..|s|] == "0" + s[..|s| - 1];
      LeadingZero(s[..|s| - 1]);
    }
  }

  /** Up to the first '-' the texts agree, and so do the rests after it. */
  lemma {:induction false} SplitsAtDash(a: string, b: string, x: string, y: string)
    requires '-' !in a && '-' !in b && a + "-" + x == b + "-" + y
    ensures a == b && x == y
  {
    var left, right := a + "-" + x, b + "-" + y;
    assert left[|a|] == '-' && right[|b|] == '-';
    assert forall k :: 0 <= k < |a| ==> left[k] == a[k] && left[k] != '-';
    assert forall k :: 0 <= k < |b| ==> right[k] == b[k] && right[k] != '-';
    assert left[..|a|] == a && right[..|b|] == b;
    assert left[|a| + 1..] == x && right[|b| + 1..] == y;
  }

  lemma {:induction false} DigitsHaveNoDash(s: string)
    requires AllDigits(s)
    ensures '-' !in s
  {
  }

  lemma {:induction false} PrefixTellsKind(a: Kind, b: Kind)
    requires Prefix(a) == Prefix(b)
    ensures a == b
  {
    assert Prefix(a)[0] == Prefix(b)[0];
  }

  lemma {:induction false} LabelsTellYears(a: nat, b: nat, x: string, y: string)
    requires SafeLabel(a) + x == SafeLabel(b) + y
    requires (x != "" ==> x[0] == '-') && (y != "" ==> y[0] == '-')
    ensures a == b
  {
    var left, right := "FY" + Digits(a), "FY" + Digits(b);
    var restA, restB := Padded(Digits((a + 1) % 100), 2) + x, Padded(Digits((b + 1) % 100), 2) + y;
    DigitsHaveNoDash(Digits(a));
    DigitsHaveNoDash(Digits(b));
    assert SafeLabel(a) + x == left + "-" + restA && SafeLabel(b) + y == right + "-" + restB;
    SplitsAtDash(left, right, restA, restB);
    assert left[2..] == Digits(a) && right[2..] == Digits(b);
  }

  /** What follows the kind, and what follows the label. */
  function AfterKind(d: Document): string {
    SafeLabel(d.series.startYear) + AfterLabel(d)
  }

  function AfterLabel(d: Document): string {
    "-" + Padded(Digits(d.number), 4)
  }

  lemma {:induction false} PrintedParts(d: Document)
    ensures PrintedNumber(d) == Prefix(d.series.kind) + "-" + AfterKind(d)
  {
    var p, l, n := Prefix(d.series.kind), SafeLabel(d.series.startYear), Padded(Digits(d.number), 4);
    assert p + "-" + l + "-" + n == p + "-" + (l + ("-" + n));
  }

  lemma {:induction false} AfterLabelTellsNumber(d: Document, e: Document)
    requires AfterLabel(d) == AfterLabel(e)
    ensures d.number == e.number
  {
    assert AfterLabel(d)[1..] == Padded(Digits(d.number), 4) && AfterLabel(e)[1..] == Padded(Digits(e.number), 4);
    PaddingIsZeros(Digits(d.number), 4);
    PaddingIsZeros(Digits(e.number), 4);
  }

  lemma {:induction false} SameTail(l: string, x: string, y: string)
    requires l + x == l + y
    ensures x == y
  {
    assert (l + x)[|l|..] == x && (l + y)[|l|..] == y;
  }

  /** Two documents of one tenant print the same number only if they are the same one. */
  lemma {:induction false} PrintedNumbersAreDistinct(d: Document, e: Document)
    requires d.series.tenant == e.series.tenant && PrintedNumber(d) == PrintedNumber(e)
    ensures d == e
  {
    PrintedParts(d);
    PrintedParts(e);
    SplitsAtDash(Prefix(d.series.kind), Prefix(e.series.kind), AfterKind(d), AfterKind(e));
    PrefixTellsKind(d.series.kind, e.series.kind);
    LabelsTellYears(d.series.startYear, e.series.startYear, AfterLabel(d), AfterLabel(e));
    SameTail(SafeLabel(d.series.startYear), AfterLabel(d), AfterLabel(e));
    AfterLabelTellsNumber(d, e);
  }

  /** So no two committed documents of a tenant carry the same printed number. */
  lemma {:induction false} NoTwoCarryOneNumber(states: seq<System>, actions: seq<Action>, i: nat, j: nat)
    requires IsRun(states, actions)
    requires var ds := states[|actions|].documents; i < j < |ds| && ds[i].series.tenant == ds[j].series.tenant
    ensures var ds := states[|actions|].documents; PrintedNumber(ds[i]) != PrintedNumber(ds[j])
  {
    var ds := states[|actions|].documents;
    if PrintedNumber(ds[i]) == PrintedNumber(ds[j]) {
      PrintedNumbersAreDistinct(ds[i], ds[j]);
      NumbersAreGapless(states, actions, ds[i].series);
      TwiceInOrder(ds, i, j);
      assert false;
    }
  }

  /** A document listed twice gives its series the same number at two places. */
  lemma {:induction false} TwiceInOrder(ds: seq<Document>, i: nat, j: nat)
    requires i < j < |ds| && ds[i] == ds[j]
    ensures exists m, n :: 0 <= m < n < |NumbersOf(ds, ds[i].series)|
                           && NumbersOf(ds, ds[i].series)[m] == NumbersOf(ds, ds[i].series)[n]
  {
    var series := ds[i].series;
    assert ds == ds[..j] + ([ds[j]] + ds[j + 1..]) && ds[..j] == ds[..i] + ([ds[i]] + ds[i + 1..j]);
    NumbersConcat(ds[..j], [ds[j]] + ds[j + 1..], series);
    NumbersConcat(ds[..i], [ds[i]] + ds[i + 1..j], series);
    NumbersConcat([ds[i]], ds[i + 1..j], series);
    NumbersConcat([ds[j]], ds[j + 1..], series);
    NumberAdded([], ds[i], series);
    assert [] + [ds[i]] == [ds[i]];
    var m, n := |NumbersOf(ds[..i], series)|, |NumbersOf(ds[..j], series)|;
    assert NumbersOf(ds, series)[m] == ds[i].number && NumbersOf(ds, series)[n] == ds[j].number;
  }

  lemma {:induction false} PaddedIsLong(s: string, width: nat)
    ensures |Padded(s, width)| == if |s| >= width then |s| else width
    ensures |s| >= width ==> Padded(s, width) == s
    decreases width - |s|
  {
    if |s| < width {
      PaddedIsLong("0" + s, width);
    }
  }

  /** Two digits of the year the fiscal year ends in, and at least four of the number, more only where four are too few. */
  predicate AreTheDigits(endYear: string, number: string, d: Document) {
    && AllDigits(endYear) && |endYear| == 2 && DigitsValue(endYear) == (d.series.startYear + 1) % 100
    && AllDigits(number) && |number| >= 4 && DigitsValue(number) == d.number && (|number| > 4 ==> number[0] != '0')
  }

  /** The printed number, such as INV-FY2026-27-0042. */
  lemma {:induction false} PrintedAs(d: Document) returns (endYear: string, number: string)
    ensures AreTheDigits(endYear, number, d)
    ensures var kind := match d.series.kind
                        case Invoice => "INV"
                        case Expense => "EXP"
                        case Receipt => "RCT"
                        case Contract => "CNT"
                        case Proforma => "PF";
            PrintedNumber(d) == kind + "-" + ("FY" + Digits(d.series.startYear) + "-" + endYear) + "-" + number
  {
    var year := (d.series.startYear + 1) % 100;
    endYear, number := Padded(Digits(year), 2), Padded(Digits(d.number), 4);
    PaddingIsZeros(Digits(year), 2);
    PaddingIsZeros(Digits(d.number), 4);
    PaddedIsLong(Digits(year), 2);
    PaddedIsLong(Digits(d.number), 4);
    TwoDigits(year);
  }

  lemma {:induction false} TwoDigits(n: nat)
    requires n < 100
    ensures |Digits(n)| <= 2
  {
  }
}
