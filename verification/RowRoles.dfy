/** Whose messages the search for poison may rewrite: never a user's, never the system's. */
module RowRoles {
  import opened Prelude
  import opened Messages
  import opened History
  import opened HistoryProofs
  import opened Threads
  import opened Poison
  import opened Probe

  /** A row with this id comes from an assistant or a tool. */
  predicate FromModelOrTool(rows: seq<Message>, id: MessageId) {
    exists j :: 0 <= j < |rows| && rows[j].id == id && (rows[j].role == Tool || rows[j].role == Assistant)
  }

  predicate Loads(rows: seq<Message>, redacted: set<MessageId>, cfg: Limits, id: MessageId) {
    exists k :: 0 <= k < |Loaded(rows, redacted, cfg)| && Loaded(rows, redacted, cfg)[k].id == id
  }

  /**
   * The candidates are the assistant and tool rows that are loaded and not redacted yet: all of them, and no others.
   */
  lemma CandidateRoles(rows: seq<Message>, redacted: set<MessageId>, cfg: Limits, id: MessageId)
    ensures id in Candidates(rows, redacted, cfg)
       <==> FromModelOrTool(rows, id) && id !in redacted && Loads(rows, redacted, cfg, id)
  {
    hide Loaded;
    SelectedIds(rows, redacted, IdsOf(Loaded(rows, redacted, cfg)));
    assert id in Candidates(rows, redacted, cfg) <==> id in SetOf(Candidates(rows, redacted, cfg));
  }

  function ModelAndToolIds(rows: seq<Message>): (ids: set<MessageId>)
    ensures forall id :: id in ids <==> FromModelOrTool(rows, id)
  {
    set j | 0 <= j < |rows| && (rows[j].role == Tool || rows[j].role == Assistant) :: rows[j].id
  }

  lemma {:induction false} RecoveredAreCandidates(
      candidates: set<MessageId> -> seq<MessageId>, probe: set<MessageId> -> Poison.Probe, turn: Poison.Probe,
      may: set<MessageId>, redacted0: set<MessageId>, retries: nat)
    requires forall redacted, id :: id in candidates(redacted) ==> id in may
    ensures redacted0 <= Recovered(candidates, probe, turn, redacted0, retries).redacted <= redacted0 + may
    decreases retries
  {
    hide Search;
    if retries > 0 && turn(redacted0) == Filtered {
      SearchFlips(candidates(redacted0), probe(redacted0));
      var where := Search(candidates(redacted0), probe(redacted0)).0;
      if where.Redacted? {
        RecoveredAreCandidates(candidates, probe, turn, may, redacted0 + {where.target}, retries - 1);
      }
    }
  }

  /** Whatever the filter says: a search redacts an assistant or tool row, and so does every round of a recovery. */
  lemma OnlyModelAndToolRows(rows: seq<Message>, summary: Option<Summary>, redacted0: set<MessageId>, cfg: Limits,
                             bad: Message -> bool, retries: nat)
    ensures var where := RowSearch(rows, redacted0, cfg, bad).0;
            where.Redacted? ==> FromModelOrTool(rows, where.target) && where.target !in redacted0
    ensures var r := RowRecovery(rows, summary, redacted0, cfg, bad, retries);
            && redacted0 <= r.redacted
            && forall id :: id in r.redacted && id !in redacted0 ==> FromModelOrTool(rows, id)
  {
    hide Search, Recovered, Candidates, RealProbe, TurnVerdict, FromModelOrTool;
    var candidates, probe := Candidates(rows, redacted0, cfg), RealProbe(rows, cfg, bad, redacted0);
    SearchFlips(candidates, probe);
    forall redacted: set<MessageId>, id | id in Candidates(rows, redacted, cfg)
      ensures id in ModelAndToolIds(rows) && id !in redacted
    {
      CandidateRoles(rows, redacted, cfg, id);
    }
    RecoveredAreCandidates((ids: set<MessageId>) => Candidates(rows, ids, cfg),
      (ids: set<MessageId>) => RealProbe(rows, cfg, bad, ids), TurnVerdict(rows, summary, cfg, bad),
      ModelAndToolIds(rows), redacted0, retries);
  }

  /** So, as rows have distinct ids, no row of a user or of the system is ever newly redacted. */
  lemma UserRowsAreSafe(rows: seq<Message>, summary: Option<Summary>, redacted0: set<MessageId>, cfg: Limits,
                        bad: Message -> bool, retries: nat, j: nat)
    requires DistinctRows(rows) && j < |rows| && (rows[j].role == User || rows[j].role == System)
    requires rows[j].id !in redacted0
    ensures RowSearch(rows, redacted0, cfg, bad).0 != Redacted(rows[j].id)
    ensures rows[j].id !in RowRecovery(rows, summary, redacted0, cfg, bad, retries).redacted
  {
    hide RowSearch, RowRecovery;
    OnlyModelAndToolRows(rows, summary, redacted0, cfg, bad, retries);
    RolesAreApart(rows, j);
  }

  lemma RolesAreApart(rows: seq<Message>, j: nat)
    requires DistinctRows(rows) && j < |rows| && (rows[j].role == User || rows[j].role == System)
    ensures !FromModelOrTool(rows, rows[j].id)
  {
    forall k | 0 <= k < |rows| && rows[k].id == rows[j].id ensures k == j {
    }
  }

  /** A bad row of a user or of the system that the request holds. */
  predicate BadUserRow(rows: seq<Message>, cfg: Limits, bad: Message -> bool, redacted: set<MessageId>, j: int) {
    && 0 <= RequestStart(rows, cfg) <= j < |rows| && bad(Sent(rows, cfg, j, rows[j]))
    && (rows[j].role == User || rows[j].role == System) && rows[j].id !in redacted
  }

  /**
   * The search gives up exactly when no assistant or tool row is left to redact in what is loaded, or a user's row, or
   * one of the system, is bad.
   */
  lemma GivesUpOnUsers(rows: seq<Message>, redacted: set<MessageId>, cfg: Limits, bad: Message -> bool)
    requires Probeable(rows, cfg, bad) && DistinctRows(rows) && |rows| <= MAX_POOL_ROWS
    ensures RowSearch(rows, redacted, cfg, bad).0 == Unredactable
       <==> || (forall id :: FromModelOrTool(rows, id) && Loads(rows, redacted, cfg, id) ==> id in redacted)
            || exists j :: BadUserRow(rows, cfg, bad, redacted, j)
  {
    hide RowSearch, Candidates, FromModelOrTool, Loads, Probeable, DistinctRows, Sent, RequestStart;
    RowIsLocalized(rows, redacted, cfg, bad);
    var candidates := Candidates(rows, redacted, cfg);
    assert OutOfReach(rows, cfg, bad, redacted) <==> exists j :: BadUserRow(rows, cfg, bad, redacted, j) by {
      forall j | 0 <= j < |rows|
        ensures BadUserRow(rows, cfg, bad, redacted, j)
           <==> BadRow(rows, cfg, bad, j) && rows[j].id !in redacted && !Redactable(rows[j])
      {
      }
    }
    forall id ensures id in candidates
      <==> FromModelOrTool(rows, id) && id !in redacted && Loads(rows, redacted, cfg, id)
    {
      CandidateRoles(rows, redacted, cfg, id);
    }
    assert candidates != [] ==> candidates[0] in candidates;
  }

  lemma SomeMember(ids: seq<MessageId>)
    ensures ids != [] ==> exists id :: id in ids
  {
    assert ids != [] ==> ids[0] in ids;
  }

  /** A thread in which only a user has spoken: nothing is rewritten, whatever the filter says. */
  lemma LoneUserIsLeftAlone(text: string, cfg: Limits, bad: Message -> bool, redacted: set<MessageId>)
    ensures var rows := [Message(Stored(0), User, [Text(text)])];
            RowSearch(rows, redacted, cfg, bad) == (Unredactable, 0)
  {
    hide Loaded;
    var rows := [Message(Stored(0), User, [Text(text)])];
    var candidates := Candidates(rows, redacted, cfg);
    forall id ensures id !in candidates {
      CandidateRoles(rows, redacted, cfg, id);
    }
    SomeMember(candidates);
  }
}
