/**
 The bounded conversation of the simulated user (scripts/e2e_question_driver.py, `QuestionConversation`,
 `_remember_answer`): the turns since the last goal change, at most six, each with an acknowledgement flag.
 */
module Conversation {

  const WINDOW: nat := 6

  datatype Turn = Turn(questionId: string, question: string, answer: string, factKeys: seq<string>, acknowledged: bool)

  datatype Event = SetGoal(goal: string) | Remember(turn: Turn) | Acknowledge(questionId: string)

  /** A goal and the turns since it was set; with all turns, or with the last six only. */
  datatype Record = Record(goal: string, turns: seq<Turn>)

  function LastSix(turns: seq<Turn>): seq<Turn> {
    if |turns| <= WINDOW then turns else turns[|turns| - WINDOW..]
  }

  /** Marks the latest turn that asked the question, if any. */
  function MarkLatest(turns: seq<Turn>, id: string): (r: seq<Turn>)
    ensures |r| == |turns|
  {
    if turns == [] then []
    else
      var n := |turns| - 1;
      if turns[n].questionId == id then turns[n := turns[n].(acknowledged := true)]
      else MarkLatest(turns[..n], id) + [turns[n]]
  }

  /** The ideal conversation forgets nothing until the goal changes. */
  ghost function Ideal(r: Record, e: Event): Record {
    match e
    case SetGoal(goal) => if r.goal == goal then r else Record(goal, [])
    case Remember(turn) => r.(turns := r.turns + [turn])
    case Acknowledge(id) => r.(turns := MarkLatest(r.turns, id))
  }

  ghost function IdealRun(events: seq<Event>): Record {
    if events == [] then Record("", []) else Ideal(IdealRun(events[..|events| - 1]), events[|events| - 1])
  }

  ghost predicate Asked(turns: seq<Turn>, id: string) {
    exists i :: 0 <= i < |turns| && turns[i].questionId == id
  }

  /** Only the part that holds the latest matching turn is changed. */
  lemma {:induction false} MarkLatestConcat(a: seq<Turn>, b: seq<Turn>, id: string)
    ensures MarkLatest(a + b, id) == if Asked(b, id) then a + MarkLatest(b, id) else MarkLatest(a, id) + b
    ensures !Asked(b, id) ==> MarkLatest(b, id) == b
    decreases |b|
  {
    if b == [] {
      assert a + b == a;
    } else {
      var n := |b| - 1;
      assert (a + b)[|a + b| - 1] == b[n] && (a + b)[..|a + b| - 1] == a + b[..n];
      MarkLatestConcat(a, b[..n], id);
      if b[n].questionId == id {
        assert Asked(b, id);
        assert (a + b)[|a + b| - 1 := b[n].(acknowledged := true)] == a + b[n := b[n].(acknowledged := true)];
      } else {
        assert b == b[..n] + [b[n]];
      }
    }
  }

  /** An acknowledgement commutes with forgetting: it marks the same turn or one already out of sight. */
  lemma WindowOfMarked(turns: seq<Turn>, id: string)
    ensures LastSix(MarkLatest(turns, id)) == MarkLatest(LastSix(turns), id)
  {
    if |turns| > WINDOW {
      var n := |turns| - WINDOW;
      var a, b := turns[..n], turns[n..];
      assert turns == a + b;
      MarkLatestConcat(a, b, id);
    }
  }

  /** Dropping the oldest turns after each answer gives the window of the full log. */
  lemma WindowOfLonger(turns: seq<Turn>, turn: Turn)
    ensures LastSix(LastSix(turns) + [turn]) == LastSix(turns + [turn])
  {
  }

  lemma LastSixKeepsLast(turns: seq<Turn>, turn: Turn)
    ensures var kept := LastSix(turns + [turn]);
            0 < |kept| <= WINDOW && kept[|kept| - 1] == turn
  {
  }

  class QuestionConversation {
    var goal: string
    var turns: seq<Turn>
    ghost var events: seq<Event>

    /** The stored conversation is the window of the ideal one over everything that happened. */
    ghost predicate Valid()
      reads this
    {
      goal == IdealRun(events).goal && turns == LastSix(IdealRun(events).turns)
    }

    constructor ()
      ensures Valid() && events == []
    {
      goal, turns, events := "", [], [];
    }

    method ChangeGoal(newGoal: string) returns (changed: bool)
      requires Valid()
      modifies this
      ensures Valid() && events == old(events) + [SetGoal(newGoal)]
      ensures changed <==> old(goal) != "" && old(goal) != newGoal
      ensures goal == newGoal && turns == if old(goal) == newGoal then old(turns) else []
    {
      changed := goal != "" && goal != newGoal;
      RunAppend(events, SetGoal(newGoal));
      events := events + [SetGoal(newGoal)];
      if goal != newGoal {
        turns := [];
        goal := newGoal;
      }
    }

    method RememberAnswer(turn: Turn)
      requires Valid() && !turn.acknowledged
      modifies this
      ensures Valid() && events == old(events) + [Remember(turn)]
      ensures goal == old(goal) && |turns| <= WINDOW && turns != [] && turns[|turns| - 1] == turn
    {
      RunAppend(events, Remember(turn));
      WindowOfLonger(IdealRun(events).turns, turn);
      events := events + [Remember(turn)];
      LastSixKeepsLast(turns, turn);
      turns := turns + [turn];
      turns := LastSix(turns);
    }

    method AcknowledgeQuestion(id: string)
      requires Valid()
      modifies this
      ensures Valid() && events == old(events) + [Acknowledge(id)]
      ensures goal == old(goal) && turns == MarkLatest(old(turns), id)
    {
      RunAppend(events, Acknowledge(id));
      WindowOfMarked(IdealRun(events).turns, id);
      events := events + [Acknowledge(id)];
      turns := MarkReversed(turns, id);
    }
  }

  /** Walks the turns backwards and marks the first one that matches. */
  method MarkReversed(turns: seq<Turn>, id: string) returns (marked: seq<Turn>)
    ensures marked == MarkLatest(turns, id)
  {
    var i := |turns|;
    while i > 0
      invariant 0 <= i <= |turns|
      invariant forall k :: i <= k < |turns| ==> turns[k].questionId != id
    {
      i := i - 1;
      if turns[i].questionId == id {
        MarksAt(turns, id, i);
        return turns[i := turns[i].(acknowledged := true)];
      }
    }
    MarksNothing(turns, id);
    marked := turns;
  }

  lemma RunAppend(events: seq<Event>, e: Event)
    ensures IdealRun(events + [e]) == Ideal(IdealRun(events), e)
  {
    assert (events + [e])[..|events|] == events;
  }

  lemma {:induction false} MarksAt(turns: seq<Turn>, id: string, i: nat)
    requires i < |turns| && turns[i].questionId == id
    requires forall k :: i < k < |turns| ==> turns[k].questionId != id
    ensures MarkLatest(turns, id) == turns[i := turns[i].(acknowledged := true)]
  {
    var n := |turns| - 1;
    if i < n {
      MarksAt(turns[..n], id, i);
    }
  }

  lemma MarksNothing(turns: seq<Turn>, id: string)
    requires forall k :: 0 <= k < |turns| ==> turns[k].questionId != id
    ensures MarkLatest(turns, id) == turns
  {
    MarkLatestConcat([], turns, id);
    assert [] + turns == turns;
  }

  /** Any run of goal changes, answers and acknowledgements ends with the window of the ideal conversation. */
  method Converse(events: seq<Event>) returns (r: Record)
    requires forall i :: 0 <= i < |events| && events[i].Remember? ==> !events[i].turn.acknowledged
    ensures r == Record(IdealRun(events).goal, LastSix(IdealRun(events).turns))
    ensures var all := IdealRun(events).turns;
            && |r.turns| == (if |all| < 6 then |all| else 6)
            && forall i :: 0 <= i < |r.turns| ==> r.turns[i] == all[|all| - |r.turns| + i]
  {
    var c := new QuestionConversation();
    for k := 0 to |events|
      invariant c.Valid() && c.events == events[..k]
    {
      assert events[..k + 1] == events[..k] + [events[k]];
      match events[k]
      case SetGoal(goal) =>
        var changed := c.ChangeGoal(goal);
      case Remember(turn) => c.RememberAnswer(turn);
      case Acknowledge(id) => c.AcknowledgeQuestion(id);
    }
    assert events[..|events|] == events;
    r := Record(c.goal, c.turns);
  }
}
