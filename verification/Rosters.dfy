/**
 * The squads service keeps the tables that ranking and the match MVP read:
 * what they ask of those tables holds in every reachable state.
 */
module Rosters {
  import opened Common
  import opened Lists
  import opened EventTables
  import Squads
  import Ranking
  import Competitive
  import Mvp

  /** The rows of squads and squad_members are those of the roster; both tables have their unique keys. */
  ghost predicate Shows(s: Squads.Roster, db: Db) {
    && db.teams == s.teams
    && Distinct(Map(db.squads, SquadId()))
    && (forall q: Squad :: q in db.squads <==> q.id in s.squads && s.squads[q.id].teamId == q.teamId)
    && Distinct(db.members)
    && (forall m: Member :: m in db.members <==> (m.squadId, m.operatorId) in s.members)
    && (forall p :: p in db.progress ==> p.operatorId in db.operators)
  }

  lemma TeamOfMember(s: Squads.Roster, db: Db, m: Member)
    requires Squads.Valid(s) && Shows(s, db) && m in db.members
    ensures m.squadId in s.squads && SquadOf(db.squads, m.squadId) == Some(Squad(m.squadId, s.squads[m.squadId].teamId))
    ensures forall e: Id :: Ranking.InEventSquad(db, e, m) <==> Squads.EventOf(s, m.squadId) == Some(e)
  {
    assert (m.squadId, m.operatorId) in s.members;
    SquadOfIsRow(db.squads, Squad(m.squadId, s.squads[m.squadId].teamId));
  }

  lemma TablesAreInOrder(s: Squads.Roster, db: Db, e: Id)
    requires Squads.Valid(s) && Shows(s, db)
    ensures Constraints(db) && Ranking.OneSquadPerEvent(db, e)
  {
    forall m | m in db.members
      ensures SquadOf(db.squads, m.squadId).Some? && (Ranking.InEventSquad(db, e, m) <==>
          Squads.EventOf(s, m.squadId) == Some(e))
    {
      TeamOfMember(s, db, m);
    }
    forall m, n | m in db.members && n in db.members && m.operatorId == n.operatorId &&
        Ranking.InEventSquad(db, e, m) && Ranking.InEventSquad(db, e, n)
      ensures m.squadId == n.squadId
    {
      assert (m.squadId, m.operatorId) in s.members && (n.squadId, n.operatorId) in s.members;
    }
  }

  /** In every reachable state the operator ranking has one row per operator. */
  lemma OneRowInEveryState(s: Squads.Roster, ops: seq<Squads.Op>, db: Db, e: Id, j: OperatorKey, k: OperatorKey)
    requires Squads.Valid(s) && Shows(Squads.Run(s, ops), db)
    requires j in Ranking.OperatorKeys(db, e) && k in Ranking.OperatorKeys(db, e) && j.operatorId == k.operatorId
    ensures j == k
  {
    Squads.EveryRunIsValid(s, ops);
    TablesAreInOrder(Squads.Run(s, ops), db, e);
    Ranking.OneRowPerOperator(db, e, j, k);
  }

  // ---------- The roster of an event ----------

  /** Who may be recorded in a round: members of some squad of one of the event's teams. */
  ghost function RosterOf(s: Squads.Roster): set<(Id, Id)> {
    set m | m in s.members && Squads.EventOf(s, m.0).Some? :: (m.1, Squads.EventOf(s, m.0).value)
  }

  function InEventOf(db: Db, e: Id): Member -> bool {
    (m: Member) => Ranking.InEventSquad(db, e, m)
  }

  function NamedBy(callsigns: map<Id, string>): Member -> (Id, string) {
    (m: Member) => (m.operatorId, OrElse(Lookup(callsigns, m.operatorId), ""))
  }

  /** Operators joined with members, squads and teams of the event. */
  function EventRoster(db: Db, callsigns: map<Id, string>, e: Id): Mvp.Roster {
    Map(Filter(db.members, InEventOf(db, e)), NamedBy(callsigns))
  }

  /** Every operator has a callsign, and no two have the same. */
  ghost predicate CallsignsUnique(db: Db, callsigns: map<Id, string>) {
    && (forall m :: m in db.members ==> m.operatorId in callsigns)
    && forall a, b :: a in callsigns && b in callsigns && callsigns[a] == callsigns[b] ==> a == b
  }

  function Itself(): Member -> Member {
    (m: Member) => m
  }

  lemma CallsignsAreDistinct(s: Squads.Roster, db: Db, callsigns: map<Id, string>, e: Id)
    requires Squads.Valid(s) && Shows(s, db) && CallsignsUnique(db, callsigns)
    ensures var roster := EventRoster(db, callsigns, e);
            forall i, j :: 0 <= i < j < |roster| ==> roster[i].1 != roster[j].1
  {
    TablesAreInOrder(s, db, e);
    var rows := Filter(db.members, InEventOf(db, e));
    FilterKeepsUnique(db.members, InEventOf(db, e), Itself());
    var roster := EventRoster(db, callsigns, e);
    forall i, j | 0 <= i < j < |roster| ensures roster[i].1 != roster[j].1 {
      assert rows[i] in rows && rows[j] in rows && Itself()(rows[i]) != Itself()(rows[j]);
    }
  }

  lemma RosteredHasRow(s: Squads.Roster, db: Db, callsigns: map<Id, string>, e: Id, op: Id) returns (k: nat)
    requires Squads.Valid(s) && Shows(s, db) && (op, e) in RosterOf(s)
    ensures k < |EventRoster(db, callsigns, e)| && EventRoster(db, callsigns, e)[k].0 == op
  {
    var m :| m in s.members && m.1 == op && Squads.EventOf(s, m.0) == Some(e);
    var row := Member(m.0, m.1);
    TeamOfMember(s, db, row);
    var rows := Filter(db.members, InEventOf(db, e));
    assert row in rows;
    k :| 0 <= k < |rows| && rows[k] == row;
  }

  /**
   * In every reachable state of the squads, for any rounds and eliminations:
   * as soon as a rostered operator has a kill there is one match MVP, nobody
   * on the roster has more kills, and nobody with as many has fewer deaths.
   */
  lemma MvpInEveryState(s: Squads.Roster, ops: seq<Squads.Op>, db: Db, callsigns: map<Id, string>,
                        rounds: Competitive.Match, e: Id, op: Id)
    requires Squads.Valid(s) && Shows(Squads.Run(s, ops), db) && CallsignsUnique(db, callsigns)
    requires (op, e) in RosterOf(Squads.Run(s, ops)) && Mvp.KillCount(rounds, e, op) > 0
    ensures var mvp := Mvp.MatchMvp(Mvp.OperatorStats(rounds, e, EventRoster(db, callsigns, e)));
            && mvp.Some?
            && Mvp.KillCount(rounds, e, op) <= mvp.value.kills
            && (Mvp.KillCount(rounds, e, op) == mvp.value.kills ==> mvp.value.deaths <= Mvp.DeathCount(rounds, e, op))
  {
    var now := Squads.Run(s, ops);
    var roster := EventRoster(db, callsigns, e);
    Squads.EveryRunIsValid(s, ops);
    CallsignsAreDistinct(now, db, callsigns, e);
    var k := RosteredHasRow(now, db, callsigns, e, op);
    LeadsOverRostered(rounds, e, roster, k);
  }

  lemma LeadsOverRostered(rounds: Competitive.Match, e: Id, roster: Mvp.Roster, k: nat)
    requires forall i, j :: 0 <= i < j < |roster| ==> roster[i].1 != roster[j].1
    requires k < |roster| && Mvp.KillCount(rounds, e, roster[k].0) > 0
    ensures var mvp := Mvp.MatchMvp(Mvp.OperatorStats(rounds, e, roster)); var op := roster[k].0;
            && mvp.Some?
            && Mvp.KillCount(rounds, e, op) <= mvp.value.kills
            && (Mvp.KillCount(rounds, e, op) == mvp.value.kills ==> mvp.value.deaths <= Mvp.DeathCount(rounds, e, op))
  {
    Mvp.MvpLeadsTheScoreboard(rounds, e, roster);
    var mvp := Mvp.MatchMvp(Mvp.OperatorStats(rounds, e, roster)).value;
    assert roster[k] in roster;
    if roster[k].1 == mvp.callsign {
      assert roster[k] == (mvp.operatorId, mvp.callsign);
    }
  }
}
