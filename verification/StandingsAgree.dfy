/** The two services agree. */
module StandingsAgree {
  import opened Common
  import opened Lists
  import opened EventTables
  import Ranking
  import Analytics

  /** Join-then-sum equals sum-then-join: both list the same squads with the same points. */
  lemma SquadPointsAgree(db: Db, e: Id)
    ensures Ranking.SquadRanking(db, e) == Analytics.SquadView(db, e)
    ensures forall id: Id, points :: (id, points) in Analytics.SquadView(db, e) <==> SquadScores(db, e, id, points)
  {
    forall id: Id, points ensures (id, points) in Ranking.SquadRanking(db, e) <==> SquadScores(db, e, id, points) {
      Ranking.SquadRankingExactly(db, e, id, points);
    }
    forall s: Squad ensures Ranking.SquadPoints(db, e, s) == Analytics.SquadColumn(db, e, s, Analytics.PointsColumn()) {
      Ranking.SquadPointsAreTotals(db, e, s);
      Analytics.SquadColumnIsTotal(db, e, s, Analytics.PointsColumn(), Points(db));
    }
  }

  /**
   * The operator halves agree: the ranking lists exactly those rows of the
   * analytics whose operator completed a mission of the event, under the same
   * squad and team and with the same points.
   */
  lemma OperatorPointsAgree(db: Db, e: Id, k: OperatorKey)
    requires Constraints(db) && Ranking.MembersUnique(db)
    ensures k in Ranking.OperatorKeys(db, e) <==> k in Analytics.OperatorKeys(db, e) && Scored(db, e, k.operatorId)
    ensures k in Ranking.OperatorKeys(db, e) ==>
        Ranking.OperatorPoints(db, e, k) == Analytics.OperatorPoints(db, e, k.operatorId) ==
          PointsWon(db, e, k.operatorId)
  {
    Ranking.KeysExactly(db, e, k);
    Analytics.KeysExactly(db, e, k);
    if k in Ranking.OperatorKeys(db, e) {
      Ranking.OperatorRowIsTotal(db, e, k);
      Analytics.OperatorPointsAreWon(db, e, k.operatorId);
    }
  }
}
