/** The duty roster: which agents answer for a missed call in a given hour (code.py:45-57). */
module Roster {
  import opened Normalization

  /** No agent appears twice in `s`. */
  predicate NoDuplicates(s: seq<string>)
  {
    forall i, j :: 0 <= i < j < |s| ==> s[i] != s[j]
  }

  /** The agents on duty at `hora`, in the order the script lists them. */
  function DutyAgents(hora: int): (r: seq<string>)
    ensures r != [] <==> 8 <= hora < 20
  {
    if 8 <= hora < 10 then [JorgeFull]
    else if 10 <= hora < 12 then [JorgeFull, MariaFull]
    else if 12 <= hora < 16 then [JorgeFull, MariaFull, JonathanFull]
    else if 16 <= hora < 18 then [JonathanFull, MariaFull]
    else if 18 <= hora < 20 then [JonathanFull]
    else []
  }

  /**
   * The roster has at most three agents, all different and all full names;
   * each agent's shift is Jorge [8,16), Maria [10,18), Jonathan [12,20).
   */
  lemma DutyAgentsShifts(hora: int)
    ensures |DutyAgents(hora)| <= 3
    ensures NoDuplicates(DutyAgents(hora))
    ensures forall a :: a in DutyAgents(hora) ==> a in FullNames
    ensures JorgeFull in DutyAgents(hora) <==> 8 <= hora < 16
    ensures MariaFull in DutyAgents(hora) <==> 10 <= hora < 18
    ensures JonathanFull in DutyAgents(hora) <==> 12 <= hora < 20
  {
  }

  /** Position of an agent in the morning-to-evening listing Jorge, Maria, Jonathan. */
  function ShiftRank(a: string): nat
  {
    if a == JorgeFull then 0 else if a == MariaFull then 1 else 2
  }

  /**
   * The roster order: by shift rank, except in the hours [16,18), where
   * Jonathan is listed before Maria.
   */
  lemma DutyAgentsOrder(hora: int)
    ensures !(16 <= hora < 18) ==>
      forall i, j :: 0 <= i < j < |DutyAgents(hora)| ==>
        ShiftRank(DutyAgents(hora)[i]) < ShiftRank(DutyAgents(hora)[j])
    ensures 16 <= hora < 18 ==> DutyAgents(hora) == [JonathanFull, MariaFull]
  {
  }

  /** The number of agents on duty is the number of shifts covering the hour. */
  lemma DutyAgentsSize(hora: int)
    ensures |DutyAgents(hora)| ==
      (if 8 <= hora < 16 then 1 else 0) + (if 10 <= hora < 18 then 1 else 0) + (if 12 <= hora < 20 then 1 else 0)
  {
  }
}
