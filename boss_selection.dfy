/** The current-boss rule of the web client's boss context: after the goal
    list is (re)fetched, `onSuccess` chooses which boss is selected, and
    `currentBoss` looks the selected id up in the list. The selection is
    the context's one piece of state (`useState(null)`); the fetch itself
    and the add/update/delete mutations, which only call the back end and
    refetch, are not part of this model. */
module BossSelection {
  import opened Common

  /** A boss as the goal list returns it: its id (a back-end `Long`) and
      its current HP; the other fields play no part in the rule. */
  datatype BossItem = BossItem(id: int, currentHp: int)

  predicate Alive(b: BossItem)
  {
    b.currentHp > 0
  }

  /** `data.find(boss => boss.id === id)`; a `null` id matches no numeric
      id. */
  function FindById(data: seq<BossItem>, id: Option<int>): (r: Option<BossItem>)
    ensures r.Some? ==> r.value in data && Some(r.value.id) == id
    ensures r.None? <==> forall i :: 0 <= i < |data| ==> Some(data[i].id) != id
  {
    if data == [] then None
    else if Some(data[0].id) == id then Some(data[0])
    else FindById(data[1..], id)
  }

  /** `data.find(boss => boss.currentHp > 0)`. */
  function FirstAlive(data: seq<BossItem>): (r: Option<BossItem>)
    ensures r.Some? ==> r.value in data && Alive(r.value)
    ensures r.None? <==> forall i :: 0 <= i < |data| ==> !Alive(data[i])
  {
    if data == [] then None
    else if Alive(data[0]) then Some(data[0])
    else FirstAlive(data[1..])
  }

  /** The id `onSuccess` passes to `setCurrentBossId`: the previously
      selected boss while it is alive, else the first alive boss, else the
      first boss's id, where `|| null` turns a falsy id (0) into `null`;
      `null` for an empty list. */
  function SelectBoss(data: seq<BossItem>, current: Option<int>): Option<int>
  {
    var previous := FindById(data, current);
    if previous.Some? && Alive(previous.value) then Some(previous.value.id)
    else if |data| > 0 then
      var firstActive := FirstAlive(data);
      if firstActive.Some? then Some(firstActive.value.id)
      else if data[0].id == 0 then None
      else Some(data[0].id)
    else None
  }

  /** `currentBossId ? bosses.find(b => b.id === currentBossId) : null`:
      a `null` or 0 id selects nothing. */
  function CurrentBossOf(bosses: seq<BossItem>, currentBossId: Option<int>): (r: Option<BossItem>)
    ensures r.Some? ==> r.value in bosses && Some(r.value.id) == currentBossId
    ensures currentBossId == None || currentBossId == Some(0) ==> r.None?
  {
    if currentBossId.None? || currentBossId.value == 0 then None
    else FindById(bosses, currentBossId)
  }

  // ---------------------------------------------------------------- lemmas

  /** `find` returns the first match: if `i` is the first index with the
      id, the result is the boss at `i`. */
  lemma {:induction false} FindByIdFirst(data: seq<BossItem>, id: Option<int>, i: nat)
    requires i < |data| && Some(data[i].id) == id
    requires forall j :: 0 <= j < i ==> Some(data[j].id) != id
    ensures FindById(data, id) == Some(data[i])
  {
    if i > 0 {
      FindByIdFirst(data[1..], id, i - 1);
    }
  }

  /** ... and likewise for the first alive boss. */
  lemma {:induction false} FirstAliveFirst(data: seq<BossItem>, i: nat)
    requires i < |data| && Alive(data[i])
    requires forall j :: 0 <= j < i ==> !Alive(data[j])
    ensures FirstAlive(data) == Some(data[i])
  {
    if i > 0 {
      FirstAliveFirst(data[1..], i - 1);
    }
  }

  /** An empty list clears the selection. */
  lemma SelectEmpty(current: Option<int>)
    ensures SelectBoss([], current) == None
  {
  }

  /** A selected boss that is still alive stays selected (the first boss
      carrying that id is the one looked at). */
  lemma SelectKeepsAliveCurrent(data: seq<BossItem>, current: Option<int>, i: nat)
    requires i < |data| && Some(data[i].id) == current && Alive(data[i])
    requires forall j :: 0 <= j < i ==> Some(data[j].id) != current
    ensures SelectBoss(data, current) == current
  {
    FindByIdFirst(data, current, i);
  }

  /** Otherwise the first alive boss in list order is selected. */
  lemma SelectFirstAlive(data: seq<BossItem>, current: Option<int>, i: nat)
    requires i < |data| && Alive(data[i])
    requires forall j :: 0 <= j < i ==> !Alive(data[j])
    requires FindById(data, current).None? || !Alive(FindById(data, current).value)
    ensures SelectBoss(data, current) == Some(data[i].id)
  {
    FirstAliveFirst(data, i);
  }

  /** With no boss alive, the first boss's id is selected, or `null` when
      that id is the falsy 0. */
  lemma SelectNoneAlive(data: seq<BossItem>, current: Option<int>)
    requires |data| > 0 && forall j :: 0 <= j < |data| ==> !Alive(data[j])
    ensures SelectBoss(data, current) == if data[0].id == 0 then None else Some(data[0].id)
  {
    var previous := FindById(data, current);
    assert previous.Some? ==> !Alive(previous.value);
  }

  /** The selection is always `null` or the id of a boss in the list; it is
      an alive boss's id exactly when some boss is alive. */
  lemma SelectInList(data: seq<BossItem>, current: Option<int>)
    ensures var r := SelectBoss(data, current);
      && (r.Some? ==> exists i :: 0 <= i < |data| && data[i].id == r.value)
      && ((exists i :: 0 <= i < |data| && Alive(data[i])) <==>
            r.Some? && exists i :: 0 <= i < |data| && data[i].id == r.value && Alive(data[i]))
  {
    var r := SelectBoss(data, current);
    var previous := FindById(data, current);
    if previous.Some? && Alive(previous.value) {
      var k :| 0 <= k < |data| && data[k] == previous.value;
      assert data[k].id == r.value && Alive(data[k]);
    } else if |data| > 0 {
      var firstActive := FirstAlive(data);
      if firstActive.Some? {
        var k :| 0 <= k < |data| && data[k] == firstActive.value;
        assert data[k].id == r.value && Alive(data[k]);
      } else {
        assert r.Some? ==> data[0].id == r.value;
        if r.Some? {
          forall i | 0 <= i < |data| && data[i].id == r.value
            ensures !Alive(data[i])
          {
          }
        }
      }
    }
  }

  /** Choosing again on the same list changes nothing: the rule is stable
      under the refetches React Query makes. (When the chosen id is also
      carried by a dead boss earlier in the list, the second choice falls
      through to the same first alive boss.) */
  lemma SelectIdempotent(data: seq<BossItem>, current: Option<int>)
    ensures SelectBoss(data, SelectBoss(data, current)) == SelectBoss(data, current)
  {
    var r := SelectBoss(data, current);
    var previous := FindById(data, current);
    if !(previous.Some? && Alive(previous.value)) && |data| > 0 && FirstAlive(data).None? && r.Some? {
      var p2 := FindById(data, r);
      assert p2.Some? ==> !Alive(p2.value) by {
        assert p2.Some? ==> p2.value in data;
      }
    }
  }

  /** With distinct ids none of which is 0, the boss the context shows
      after a fetch is alive whenever any boss is. */
  lemma CurrentBossAlive(data: seq<BossItem>, current: Option<int>)
    requires forall i, j :: 0 <= i < j < |data| ==> data[i].id != data[j].id
    requires forall i :: 0 <= i < |data| ==> data[i].id != 0
    requires exists i :: 0 <= i < |data| && Alive(data[i])
    ensures var b := CurrentBossOf(data, SelectBoss(data, current));
      b.Some? && Alive(b.value)
  {
    var r := SelectBoss(data, current);
    SelectInList(data, current);
    var k :| 0 <= k < |data| && data[k].id == r.value && Alive(data[k]);
    FindByIdFirst(data, r, k);
  }

  /** Id 0 is falsy: an alive boss with id 0 is selected, yet
      `currentBoss` shows nothing, and a dead one is not even selected.
      (Back-end ids start at 1, so this does not arise from the service.) */
  lemma ZeroIdShowsNothing()
    ensures SelectBoss([BossItem(0, 10)], None) == Some(0)
    ensures CurrentBossOf([BossItem(0, 10)], Some(0)) == None
    ensures SelectBoss([BossItem(0, 0)], None) == None
  {
  }

  // ------------------------------------------------------------ the state

  class Selection {
    /** `currentBossId`. */
    var currentBossId: Option<int>

    /** `useState(null)`. */
    constructor ()
      ensures currentBossId == None
    {
      currentBossId := None;
    }

    /** The `onSuccess` callback of the goal query. */
    method OnSuccess(data: seq<BossItem>)
      modifies this
      ensures currentBossId == SelectBoss(data, old(currentBossId))
    {
      var previouslySelectedBoss := FindById(data, currentBossId);
      if previouslySelectedBoss.Some? && previouslySelectedBoss.value.currentHp > 0 {
        currentBossId := Some(previouslySelectedBoss.value.id);
      } else if |data| > 0 {
        var firstActiveBoss := FirstAlive(data);
        if firstActiveBoss.Some? {
          currentBossId := Some(firstActiveBoss.value.id);
        } else {
          currentBossId := if data[0].id != 0 then Some(data[0].id) else None;
        }
      } else {
        currentBossId := None;
      }
    }

    /** `currentBoss`. */
    function CurrentBoss(bosses: seq<BossItem>): (r: Option<BossItem>)
      reads this
      ensures r.Some? ==> r.value in bosses && Some(r.value.id) == currentBossId
    {
      CurrentBossOf(bosses, currentBossId)
    }
  }
}
