/** The match MVP and the MVP of each round: the first row of an ORDER BY. */
module Mvp {
  import opened Common
  import opened Joins
  import opened Lists
  import Competitive

  datatype Stats = Stats(operatorId: Id, callsign: string, kills: nat, deaths: nat)

  /** Callsigns in code-point order. */
  predicate StringLess(a: string, b: string) {
    if b == "" then false
    else if a == "" then true
    else a[0] < b[0] || (a[0] == b[0] && StringLess(a[1..], b[1..]))
  }

  lemma {:induction false} StringOrderIsTotal(a: string, b: string)
    ensures a == b || StringLess(a, b) || StringLess(b, a)
    ensures !(StringLess(a, b) && StringLess(b, a))
    ensures !StringLess(a, a)
  {
    if a != "" {
      StringOrderIsTotal(a[1..], a[1..]);
      if b != "" {
        StringOrderIsTotal(a[1..], b[1..]);
        assert a == [a[0]] + a[1..] && b == [b[0]] + b[1..];
      }
    }
  }

  lemma {:induction false} StringOrderIsTransitive(a: string, b: string, c: string)
    requires StringLess(a, b) && StringLess(b, c)
    ensures StringLess(a, c)
  {
    if a != "" && a[0] == b[0] && b[0] == c[0] {
      StringOrderIsTransitive(a[1..], b[1..], c[1..]);
    }
  }

  /** Two strings agree before place i, and there the first has the smaller character. */
  predicate SmallerAt(a: string, b: string, i: int) {
    0 <= i < |a| && i < |b| && a[..i] == b[..i] && a[i] < b[i]
  }

  lemma SmallerOneLater(a: string, b: string, i: nat)
    requires a != "" && b != "" && a[0] == b[0]
    ensures SmallerAt(a, b, i + 1) <==> SmallerAt(a[1..], b[1..], i)
  {
    if i + 1 < |a| && i + 1 < |b| {
      assert a[..i + 1] == [a[0]] + a[1..][..i] && b[..i + 1] == [b[0]] + b[1..][..i];
      assert a[..i + 1][1..] == a[1..][..i] && b[..i + 1][1..] == b[1..][..i];
    }
  }

  lemma PrefixOneLater(a: string, b: string)
    requires a != "" && b != "" && a[0] == b[0]
    ensures a <= b <==> a[1..] <= b[1..]
  {
    assert a == [a[0]] + a[1..] && b == [b[0]] + b[1..];
  }

  /** The first difference decides, and a proper prefix comes first. */
  lemma {:induction false} StringLessExactly(a: string, b: string)
    ensures StringLess(a, b) <==> a < b || exists i :: SmallerAt(a, b, i)
  {
    if a != "" && b != "" {
      if a[0] == b[0] {
        StringLessExactly(a[1..], b[1..]);
        PrefixOneLater(a, b);
        if i :| SmallerAt(a, b, i) {
          SmallerOneLater(a, b, i - 1);
        }
        if i :| SmallerAt(a[1..], b[1..], i) {
          SmallerOneLater(a, b, i);
        }
      } else {
        assert SmallerAt(a, b, 0) <==> a[0] < b[0];
      }
    }
  }

  /** kills / NULLIF(deaths, 0). */
  function Ratio(s: Stats): Option<real> {
    if s.deaths == 0 then None else Some(s.kills as real / s.deaths as real)
  }

  /** DESC NULLS FIRST, strictly. */
  predicate RatioBefore(a: Option<real>, b: Option<real>) {
    b.Some? && (a.None? || a.value > b.value)
  }

  /** The query's ORDER BY. */
  predicate SqlBefore(a: Stats, b: Stats) {
    if a.kills != b.kills then a.kills > b.kills
    else if Ratio(a) != Ratio(b) then RatioBefore(Ratio(a), Ratio(b))
    else StringLess(a.callsign, b.callsign)
  }

  /** What it means: more kills, then fewer deaths, then callsign. */
  predicate Better(a: Stats, b: Stats) {
    if a.kills != b.kills then a.kills > b.kills
    else if a.deaths != b.deaths then a.deaths < b.deaths
    else StringLess(a.callsign, b.callsign)
  }

  lemma Product(x: real, y: real, k: real)
    requires x <= y && k > 0.0
    ensures x * k <= y * k
    ensures x < y ==> k * x < k * y
  {
  }

  lemma SmallerDivisor(k: nat, a: nat, b: nat)
    requires 0 < a < b && k > 0
    ensures k as real / a as real > k as real / b as real
  {
    var p, q := k as real / a as real, k as real / b as real;
    assert p * a as real == k as real && q * b as real == k as real;
    Product(a as real, b as real, q);
    assert p * a as real > q * a as real;
    if p <= q {
      Product(p, q, a as real);
      assert false;
    }
  }

  /** Among operators with kills, the query's order is kills, then deaths, then callsign. */
  lemma SqlOrderIsBetter(a: Stats, b: Stats)
    requires a.kills > 0 && b.kills > 0
    ensures SqlBefore(a, b) <==> Better(a, b)
  {
    if a.kills == b.kills && a.deaths > 0 && b.deaths > 0 {
      if a.deaths < b.deaths {
        SmallerDivisor(a.kills, a.deaths, b.deaths);
      } else if b.deaths < a.deaths {
        SmallerDivisor(a.kills, b.deaths, a.deaths);
      }
    }
  }

  function SqlOrder(): (Stats, Stats) -> bool {
    (a: Stats, b: Stats) => SqlBefore(a, b)
  }

  /** ORDER BY kills DESC, kills / deaths DESC NULLS FIRST, callsign ASC LIMIT 1. */
  function MatchMvp(rows: seq<Stats>): Option<Stats> {
    First(Filter(rows, (s: Stats) => s.kills > 0), SqlOrder())
  }

  lemma BetterIsTransitive(a: Stats, b: Stats, c: Stats)
    requires Better(a, b) && Better(b, c)
    ensures Better(a, c)
  {
    if a.kills == b.kills == c.kills && a.deaths == b.deaths == c.deaths {
      StringOrderIsTransitive(a.callsign, b.callsign, c.callsign);
    }
  }

  /** operators.callsign is unique, and a roster row is one operator. */
  predicate DistinctCallsigns(rows: seq<Stats>) {
    UniqueBy(rows, Callsign())
  }

  function Callsign(): Stats -> string {
    (s: Stats) => s.callsign
  }

  lemma FirstIsBest(rows: seq<Stats>)
    requires DistinctCallsigns(rows) && forall s :: s in rows ==> s.kills > 0
    ensures var first := First(rows, SqlOrder());
            && (first.None? <==> rows == [])
            && (first.Some? ==> first.value in rows)
            && forall s :: s in rows && s != first.value ==> Better(first.value, s)
  {
    forall i, j | 0 <= i < j < |rows| ensures SqlOrder()(rows[i], rows[j]) || SqlOrder()(rows[j], rows[i]) {
      assert Callsign()(rows[i]) != Callsign()(rows[j]);
      StringOrderIsTotal(rows[i].callsign, rows[j].callsign);
      SqlOrderIsBetter(rows[i], rows[j]);
      SqlOrderIsBetter(rows[j], rows[i]);
    }
    forall a, b, c | a in rows && b in rows && c in rows && SqlOrder()(a, b) && SqlOrder()(b, c)
        ensures SqlOrder()(a, c) {
      SqlOrderIsBetter(a, b);
      SqlOrderIsBetter(b, c);
      SqlOrderIsBetter(a, c);
      BetterIsTransitive(a, b, c);
    }
    FirstIsBefore(rows, SqlOrder());
    forall s | s in rows && s != First(rows, SqlOrder()).value ensures Better(First(rows, SqlOrder()).value, s) {
      SqlOrderIsBetter(First(rows, SqlOrder()).value, s);
    }
  }

  /**
   * The match MVP is the unique maximum by kills, then fewer deaths, then
   * callsign; there is none exactly when nobody has a kill.
   */
  lemma MvpIsUniqueMaximum(rows: seq<Stats>)
    requires DistinctCallsigns(rows)
    ensures MatchMvp(rows).None? <==> forall s :: s in rows ==> s.kills == 0
    ensures MatchMvp(rows).Some? ==>
              var mvp := MatchMvp(rows).value;
              mvp in rows && mvp.kills > 0 && forall s :: s in rows && s != mvp ==> Better(mvp, s) && !Better(s, mvp)
  {
    var scorers := Filter(rows, (s: Stats) => s.kills > 0);
    FilterKeepsUnique(rows, (s: Stats) => s.kills > 0, Callsign());
    FirstIsBest(scorers);
    if MatchMvp(rows).Some? {
      var mvp := MatchMvp(rows).value;
      forall s | s in rows && s != mvp ensures Better(mvp, s) && !Better(s, mvp) {
        StringOrderIsTotal(mvp.callsign, s.callsign);
        if s.kills > 0 {
          assert s in scorers;
        }
      }
    } else {
      assert forall s :: s in rows && s.kills > 0 ==> s in scorers;
    }
  }

  /** The operators rostered in an event, with their callsigns. */
  type Roster = seq<(Id, string)>

  /** The rows of operator_stats. */
  function OperatorStats(s: Competitive.Match, e: Id, roster: Roster): seq<Stats> {
    Map(roster, (o: (Id, string)) => Stats(o.0, o.1, Competitive.Kills(s, e, o.0), Competitive.Deaths(s, e, o.0)))
  }

  function KillOf(s: Competitive.Match, e: Id, op: Id): Competitive.Elimination -> bool {
    (x: Competitive.Elimination) => x.killer == Some(op) && x.round < |s.rounds| && s.rounds[x.round].eventId == e
  }

  function DeathOf(s: Competitive.Match, e: Id, op: Id): Competitive.Elimination -> bool {
    (x: Competitive.Elimination) => x.victim == op && x.round < |s.rounds| && s.rounds[x.round].eventId == e
  }

  /** The eliminations recorded in rounds of the event with the operator as killer, and as victim. */
  function KillCount(s: Competitive.Match, e: Id, op: Id): nat {
    |Filter(s.eliminations, KillOf(s, e, op))|
  }

  function DeathCount(s: Competitive.Match, e: Id, op: Id): nat {
    |Filter(s.eliminations, DeathOf(s, e, op))|
  }

  lemma CountsAreRows(s: Competitive.Match, e: Id, op: Id)
    ensures Competitive.Kills(s, e, op) == KillCount(s, e, op)
    ensures Competitive.Deaths(s, e, op) == DeathCount(s, e, op)
  {
    CountIsSum(s.eliminations, KillOf(s, e, op), Competitive.Kill(s, e, op));
    CountIsSum(s.eliminations, DeathOf(s, e, op), Competitive.Death(s, e, op));
  }

  /** The MVP has more kills than another, or as many and fewer deaths, or as many of both and an earlier callsign. */
  predicate LeadsOver(mvp: Stats, callsign: string, kills: nat, deaths: nat) {
    || kills < mvp.kills
    || (kills == mvp.kills && mvp.deaths < deaths)
    || (kills == mvp.kills && deaths == mvp.deaths && StringLess(mvp.callsign, callsign))
  }

  /**
   * In terms of the eliminations recorded: there is an MVP exactly when
   * somebody on the roster has a kill in the event; the MVP is on the roster,
   * with the kills and deaths recorded, and leads over all others on it.
   */
  lemma MvpLeadsTheScoreboard(s: Competitive.Match, e: Id, roster: Roster)
    requires forall i, j :: 0 <= i < j < |roster| ==> roster[i].1 != roster[j].1
    ensures var mvp := MatchMvp(OperatorStats(s, e, roster));
            && (mvp.Some? <==> exists k :: 0 <= k < |roster| && KillCount(s, e, roster[k].0) > 0)
            && (mvp.Some? ==>
                  && (mvp.value.operatorId, mvp.value.callsign) in roster
                  && mvp.value.kills == KillCount(s, e, mvp.value.operatorId) > 0
                  && mvp.value.deaths == DeathCount(s, e, mvp.value.operatorId))
            && (mvp.Some? ==> forall o :: o in roster && o.1 != mvp.value.callsign ==>
                  LeadsOver(mvp.value, o.1, KillCount(s, e, o.0), DeathCount(s, e, o.0)))
  {
    var rows := OperatorStats(s, e, roster);
    MvpIsUniqueMaximum(rows);
    forall k | 0 <= k < |roster|
      ensures rows[k] in rows && rows[k] == Stats(roster[k].0, roster[k].1, KillCount(s, e, roster[k].0),
                                                  DeathCount(s, e, roster[k].0))
    {
      CountsAreRows(s, e, roster[k].0);
    }
  }

  // ---------- The MVP of a round ----------

  datatype RoundStats = RoundStats(operatorId: Id, callsign: string, kills: nat, survived: bool)

  /** More kills, then surviving the round, then callsign. */
  predicate RoundBetter(a: RoundStats, b: RoundStats) {
    if a.kills != b.kills then a.kills > b.kills
    else if a.survived != b.survived then a.survived
    else StringLess(a.callsign, b.callsign)
  }

  function RoundOrder(): (RoundStats, RoundStats) -> bool {
    (a: RoundStats, b: RoundStats) => RoundBetter(a, b)
  }

  function KilledIn(round: int): Competitive.Elimination -> bool {
    (x: Competitive.Elimination) => x.round == round && x.killer.Some?
  }

  function Killer(): Competitive.Elimination -> Id {
    (x: Competitive.Elimination) => OrElse(x.killer, 0)
  }

  /** The groups of per_round_kills in one round. */
  function Killers(s: Competitive.Match, round: int): seq<Id> {
    DistinctOf(Map(Filter(s.eliminations, KilledIn(round)), Killer()))
  }

  function KillIn(round: int, op: Id): Competitive.Elimination -> int {
    (x: Competitive.Elimination) => if x.round == round && x.killer == Some(op) then 1 else 0
  }

  function RoundKills(s: Competitive.Match, round: int, op: Id): nat {
    SumFromZero(s.eliminations, KillIn(round, op));
    Sum(s.eliminations, KillIn(round, op))
  }

  function RoundRow(s: Competitive.Match, callsigns: map<Id, string>, round: int): Id -> RoundStats {
    (op: Id) => RoundStats(op, OrElse(Lookup(callsigns, op), ""), RoundKills(s, round, op),
        !Competitive.DiedIn(s, op, round))
  }

  /** ROW_NUMBER() = 1 of the round's partition. */
  function RoundMvp(s: Competitive.Match, callsigns: map<Id, string>, round: int): Option<RoundStats> {
    First(Map(Killers(s, round), RoundRow(s, callsigns, round)), RoundOrder())
  }

  lemma KillersExactly(s: Competitive.Match, round: int, op: Id)
    ensures op in Killers(s, round) <==> exists x :: x in s.eliminations && x.round == round && x.killer == Some(op)
    ensures op in Killers(s, round) ==> RoundKills(s, round, op) > 0
  {
    var rows := Filter(s.eliminations, KilledIn(round));
    var ids := Map(rows, Killer());
    if op in Killers(s, round) {
      var i :| 0 <= i < |ids| && ids[i] == op;
      assert rows[i] in rows && Killer()(rows[i]) == op;
      assert rows[i] in s.eliminations && KilledIn(round)(rows[i]);
      SumAtLeast(s.eliminations, KillIn(round, op), rows[i]);
    }
    if x :| x in s.eliminations && x.round == round && x.killer == Some(op) {
      assert KilledIn(round)(x) && x in rows;
      var i :| 0 <= i < |rows| && rows[i] == x;
      assert ids[i] == op;
    }
  }

  lemma RoundOrderDecides(a: RoundStats, b: RoundStats, c: RoundStats)
    ensures a.callsign != b.callsign ==> RoundBetter(a, b) || RoundBetter(b, a)
    ensures RoundBetter(a, b) && RoundBetter(b, c) ==> RoundBetter(a, c)
    ensures !(RoundBetter(a, b) && RoundBetter(b, a))
  {
    StringOrderIsTotal(a.callsign, b.callsign);
    if RoundBetter(a, b) && RoundBetter(b, c) && a.kills == b.kills == c.kills &&
        a.survived == b.survived == c.survived {
      StringOrderIsTransitive(a.callsign, b.callsign, c.callsign);
    }
  }

  /** Every killer of the round has a callsign, and no two have the same. */
  predicate Named(s: Competitive.Match, callsigns: map<Id, string>, round: int) {
    && (forall op :: op in Killers(s, round) ==> op in callsigns)
    && forall a, b :: a in Killers(s, round) && b in Killers(s, round) && callsigns[a] == callsigns[b] ==> a == b
  }

  lemma RoundFirst(s: Competitive.Match, callsigns: map<Id, string>, round: int)
    requires Named(s, callsigns, round)
    ensures var rows := Map(Killers(s, round), RoundRow(s, callsigns, round)); var mvp := RoundMvp(s, callsigns, round);
            && (mvp.None? <==> rows == [])
            && (mvp.Some? ==> mvp.value in rows)
            && forall x :: x in rows && x != mvp.value ==> RoundBetter(mvp.value, x)
  {
    var ids, row := Killers(s, round), RoundRow(s, callsigns, round);
    var rows := Map(ids, row);
    forall i, j | 0 <= i < j < |rows| ensures RoundOrder()(rows[i], rows[j]) || RoundOrder()(rows[j], rows[i]) {
      assert ids[i] in ids && ids[j] in ids && ids[i] != ids[j];
      RoundOrderDecides(rows[i], rows[j], rows[i]);
    }
    forall a, b, c | a in rows && b in rows && c in rows && RoundOrder()(a, b) && RoundOrder()(b, c)
      ensures RoundOrder()(a, c)
    {
      RoundOrderDecides(a, b, c);
    }
    FirstIsBefore(rows, RoundOrder());
    var first := First(rows, RoundOrder());
    forall x | x in rows && x != first.value ensures RoundBetter(first.value, x) {
      assert RoundOrder()(first.value, x);
    }
  }

  function KillInRound(round: int, op: Id): Competitive.Elimination -> bool {
    (x: Competitive.Elimination) => x.round == round && x.killer == Some(op)
  }

  /** The eliminations of the round with the operator as killer. */
  function KillCountIn(s: Competitive.Match, round: int, op: Id): nat {
    |Filter(s.eliminations, KillInRound(round, op))|
  }

  predicate SurvivedRound(s: Competitive.Match, round: int, op: Id) {
    forall x :: x in s.eliminations && x.round == round ==> x.victim != op
  }

  lemma RoundRowShows(s: Competitive.Match, callsigns: map<Id, string>, round: int, op: Id)
    requires op in callsigns
    ensures RoundRow(s, callsigns, round)(op) ==
            RoundStats(op, callsigns[op], KillCountIn(s, round, op), SurvivedRound(s, round, op))
  {
    CountIsSum(s.eliminations, KillInRound(round, op), KillIn(round, op));
    assert Competitive.DiedIn(s, op, round) <==> !SurvivedRound(s, round, op);
  }

  /** The MVP of a round has more kills in it than this, or as many and alone survived, or the earlier callsign. */
  predicate LeadsRound(mvp: RoundStats, callsign: string, kills: nat, survived: bool) {
    || kills < mvp.kills
    || (kills == mvp.kills && mvp.survived && !survived)
    || (kills == mvp.kills && mvp.survived == survived && StringLess(mvp.callsign, callsign))
  }

  predicate KilledInRound(s: Competitive.Match, round: int, op: Id) {
    exists x :: x in s.eliminations && x.round == round && x.killer == Some(op)
  }

  /**
   * The MVP of a round, in terms of the eliminations recorded: one of its
   * killers, with the kills recorded, who leads over all other killers by
   * kills, then surviving, then callsign; there is none exactly when nobody was
   * eliminated by another operator.
   */
  lemma RoundMvpLeads(s: Competitive.Match, callsigns: map<Id, string>, round: int)
    requires Named(s, callsigns, round)
    ensures RoundMvp(s, callsigns, round).None? <==>
            forall x :: x in s.eliminations && x.round == round ==> x.killer.None?
    ensures RoundMvp(s, callsigns, round).Some? ==>
              var mvp := RoundMvp(s, callsigns, round).value; var op := mvp.operatorId;
              && KilledInRound(s, round, op) && op in callsigns && mvp.callsign == callsigns[op]
              && mvp.kills == KillCountIn(s, round, op) > 0 && mvp.survived == SurvivedRound(s, round, op)
              && forall o :: o in callsigns && o != op && KilledInRound(s, round, o) ==>
                   LeadsRound(mvp, callsigns[o], KillCountIn(s, round, o), SurvivedRound(s, round, o))
  {
    RoundMvpIsUniqueMaximum(s, callsigns, round);
    var first := RoundMvp(s, callsigns, round);
    if first.Some? {
      var op := first.value.operatorId;
      KillersExactly(s, round, op);
      RoundRowShows(s, callsigns, round, op);
      forall o | o in callsigns && o != op && KilledInRound(s, round, o)
        ensures LeadsRound(first.value, callsigns[o], KillCountIn(s, round, o), SurvivedRound(s, round, o))
      {
        KillersExactly(s, round, o);
        RoundRowShows(s, callsigns, round, o);
      }
    }
  }

  lemma RoundMvpIsUniqueMaximum(s: Competitive.Match, callsigns: map<Id, string>, round: int)
    requires Named(s, callsigns, round)
    ensures RoundMvp(s, callsigns, round).None? <==>
            forall x :: x in s.eliminations && x.round == round ==> x.killer.None?
    ensures RoundMvp(s, callsigns, round).Some? ==>
              var mvp := RoundMvp(s, callsigns, round).value; var row := RoundRow(s, callsigns, round);
              && mvp.operatorId in Killers(s, round) && mvp == row(mvp.operatorId) && mvp.kills > 0
              && forall op :: op in Killers(s, round) && op != mvp.operatorId ==>
                   RoundBetter(mvp, row(op)) && !RoundBetter(row(op), mvp)
  {
    var ids, row := Killers(s, round), RoundRow(s, callsigns, round);
    var rows := Map(ids, row);
    RoundFirst(s, callsigns, round);
    NoKillersExactly(s, round);
    var first := RoundMvp(s, callsigns, round);
    if first.Some? {
      var mvp := first.value;
      var i :| 0 <= i < |rows| && rows[i] == mvp;
      KillersExactly(s, round, ids[i]);
      forall op | op in ids && op != mvp.operatorId ensures RoundBetter(mvp, row(op)) && !RoundBetter(row(op), mvp) {
        var k :| 0 <= k < |ids| && ids[k] == op;
        assert rows[k] in rows && rows[k] == row(op);
        RoundOrderDecides(mvp, row(op), row(op));
      }
    }
  }

  lemma NoKillersExactly(s: Competitive.Match, round: int)
    ensures Killers(s, round) == [] <==> forall x :: x in s.eliminations && x.round == round ==> x.killer.None?
  {
    var ids := Killers(s, round);
    if ids != [] {
      KillersExactly(s, round, ids[0]);
      assert ids[0] in ids;
    }
    if x :| x in s.eliminations && x.round == round && x.killer.Some? {
      KillersExactly(s, round, x.killer.value);
    }
  }
}
