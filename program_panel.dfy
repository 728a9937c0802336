/**
 * The session reorder of components/ProgramPanel.tsx: dragging the sessions of
 * the active cycle into a new order produces a new program map in which only
 * that cycle's session list is replaced.
 */
module ProgramPanel {
  import opened Types
  import WorkoutPlayer

  /**
   * `handleReorder`: no update (None) without program data or without the
   * active cycle; otherwise a copy of the map whose active cycle keeps its
   * other fields and takes the new session list.
   */
  function HandleReorder(fullData: Option<map<int, Program>>, activeCycle: int, newSessions: seq<Session>)
    : (r: Option<map<int, Program>>)
    ensures r.None? <==> fullData.None? || activeCycle !in fullData.value
    ensures r.Some? ==> r.value.Keys == fullData.value.Keys
    ensures r.Some? ==> r.value[activeCycle] == fullData.value[activeCycle].(sessions := newSessions)
    ensures r.Some? ==> forall c | c in r.value && c != activeCycle :: r.value[c] == fullData.value[c]
  {
    if fullData.None? || activeCycle !in fullData.value then None
    else
      var currentCycleData := fullData.value[activeCycle];
      Some(fullData.value[activeCycle := currentCycleData.(sessions := newSessions)])
  }

  /** Putting the old order back restores the program data exactly. */
  lemma ReorderUndone(fullData: map<int, Program>, activeCycle: int, newSessions: seq<Session>)
    requires activeCycle in fullData
    ensures var updated := HandleReorder(Some(fullData), activeCycle, newSessions).value;
      HandleReorder(Some(updated), activeCycle, fullData[activeCycle].sessions) == Some(fullData)
  {
    var updated := HandleReorder(Some(fullData), activeCycle, newSessions).value;
    var restored := HandleReorder(Some(updated), activeCycle, fullData[activeCycle].sessions).value;
    assert restored == fullData;
  }

  /** A second drop of the same order changes nothing more. */
  lemma ReorderIdempotent(fullData: map<int, Program>, activeCycle: int, newSessions: seq<Session>)
    requires activeCycle in fullData
    ensures var updated := HandleReorder(Some(fullData), activeCycle, newSessions).value;
      HandleReorder(Some(updated), activeCycle, newSessions) == Some(updated)
  {
    var updated := HandleReorder(Some(fullData), activeCycle, newSessions).value;
    var again := HandleReorder(Some(updated), activeCycle, newSessions).value;
    assert again == updated;
  }

  /** After a reorder, the player shows the session now at the selected position of the active cycle. */
  lemma PlayerSeesNewOrder(fullData: map<int, Program>, activeCycle: int, newSessions: seq<Session>, idx: int)
    requires activeCycle in fullData
    requires 0 <= idx < |newSessions|
    ensures var updated := HandleReorder(Some(fullData), activeCycle, newSessions).value;
      WorkoutPlayer.SessionAt(updated, activeCycle, idx) == Some(newSessions[idx])
  {
  }

  /** Reordering one cycle leaves what the player shows for any other existing cycle unchanged. */
  lemma OtherCyclesUnchanged(fullData: map<int, Program>, activeCycle: int, newSessions: seq<Session>, cycle: int, idx: int)
    requires activeCycle in fullData && cycle in fullData && cycle != activeCycle
    ensures var updated := HandleReorder(Some(fullData), activeCycle, newSessions).value;
      WorkoutPlayer.SessionAt(updated, cycle, idx) == WorkoutPlayer.SessionAt(fullData, cycle, idx)
  {
  }
}
