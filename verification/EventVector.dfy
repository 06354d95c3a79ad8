/** The event list of the multi-component model as it is written: a vector that
    is heap ordered with the earliest event in front, but read and popped at the
    back. These results say exactly when that is the event list the
    documentation describes. */
module EventVector {
  datatype Event = Event(time: real, id: nat)

  ghost predicate UniqueIds(data: seq<Event>)
  {
    forall i, j :: 0 <= i < j < |data| ==> data[i].id != data[j].id
  }

  /** What std::make_heap leaves behind: events compare by decreasing time, so
      every parent is at least as early as its children. */
  ghost predicate IsHeap(data: seq<Event>)
  {
    forall i :: 1 <= i < |data| ==> BelowParent(data, i)
  }

  ghost predicate BelowParent(data: seq<Event>, i: nat)
    requires 1 <= i < |data|
  {
    data[(i - 1) / 2].time <= data[i].time
  }

  lemma {:induction false} FrontIsEarliest(data: seq<Event>, i: nat)
    requires IsHeap(data) && i < |data|
    ensures data[0].time <= data[i].time
    decreases i
  {
    if i > 0 {
      assert BelowParent(data, i);
      FrontIsEarliest(data, (i - 1) / 2);
    }
  }

  ghost predicate IsEarliest(data: seq<Event>, t: real)
  {
    && (exists i :: 0 <= i < |data| && data[i].time == t)
    && forall i :: 0 <= i < |data| ==> t <= data[i].time
  }

  /** scheduler::top, for a list that is not empty. */
  function Top(data: seq<Event>): (t: real)
    requires data != []
  {
    data[|data|-1].time
  }

  /** `top` is the minimum if and only if the last event is as early as the
      first. */
  lemma TopExact(data: seq<Event>)
    requires IsHeap(data) && data != []
    ensures IsEarliest(data, Top(data)) <==> data[|data|-1].time == data[0].time
  {
    forall i | 0 <= i < |data| ensures data[0].time <= data[i].time {
      FrontIsEarliest(data, i);
    }
    assert data[|data|-1].time == Top(data);
  }

  /** scheduler::make_imminent: pops from the back while the time is that of the
      last event. */
  method MakeImminent(data: seq<Event>) returns (imminent: set<nat>, rest: seq<Event>)
    ensures (imminent, rest) == Imminent(data)
  {
    imminent, rest := {}, data;
    if rest == [] {
      return;
    }
    var t := rest[|rest|-1].time;
    ghost var goal := PopRun(data, t);
    imminent := imminent + {rest[|rest|-1].id};
    rest := rest[..|rest|-1];
    while rest != [] && t == rest[|rest|-1].time
      invariant goal.0 == imminent + PopRun(rest, t).0
      invariant goal.1 == PopRun(rest, t).1
      decreases |rest|
    {
      imminent := imminent + {rest[|rest|-1].id};
      rest := rest[..|rest|-1];
    }
    assert goal.0 == imminent;
  }

  function PopRun(data: seq<Event>, t: real): (r: (set<nat>, seq<Event>))
  {
    if data == [] || data[|data|-1].time != t then ({}, data)
    else
      var r := PopRun(data[..|data|-1], t);
      ({data[|data|-1].id} + r.0, r.1)
  }

  function Imminent(data: seq<Event>): (r: (set<nat>, seq<Event>))
  {
    if data == [] then ({}, []) else PopRun(data, Top(data))
  }

  /** The events that should become imminent. */
  ghost function Earliest(data: seq<Event>): set<nat>
  {
    set i | 0 <= i < |data| && IsEarliest(data, data[i].time) :: data[i].id
  }

  /** Popping splits the list: what stays is everything up to the last event with
      another date, what goes is all behind it. */
  lemma {:induction false} PopSplits(data: seq<Event>, t: real) returns (k: nat)
    ensures k <= |data| && PopRun(data, t).1 == data[..k]
    ensures forall i :: k <= i < |data| ==> data[i].time == t
    ensures k > 0 ==> data[k-1].time != t
    ensures forall id :: id in PopRun(data, t).0 <==> exists i :: k <= i < |data| && data[i].id == id
  {
    if data == [] || data[|data|-1].time != t {
      k := |data|;
      assert data[..k] == data;
    } else {
      var n := |data| - 1;
      var front := data[..n];
      k := PopSplits(front, t);
      assert front[..k] == data[..k];
      forall id ensures id in PopRun(data, t).0 <==> exists i :: k <= i < |data| && data[i].id == id {
        if id in PopRun(front, t).0 {
          var i :| k <= i < n && front[i].id == id;
          assert data[i].id == id;
        }
        if i :| k <= i < |data| && data[i].id == id && i != n {
          assert front[i].id == id;
        }
      }
    }
  }

  /** `make_imminent` takes the events of the last date at the back, all of them
      up to the first with another date, and leaves the rest as it was. */
  lemma ImminentSplits(data: seq<Event>) returns (k: nat)
    requires data != []
    ensures k < |data| && Imminent(data).1 == data[..k]
    ensures forall i :: k <= i < |data| ==> data[i].time == data[|data|-1].time
    ensures k > 0 ==> data[k-1].time != data[|data|-1].time
    ensures forall id :: id in Imminent(data).0 <==> exists i :: k <= i < |data| && data[i].id == id
  {
    k := PopSplits(data, Top(data));
  }

  lemma {:induction false} PopRunMembers(data: seq<Event>, t: real, id: nat)
    requires id in PopRun(data, t).0
    ensures exists i :: 0 <= i < |data| && data[i].id == id && forall k :: i <= k < |data| ==> data[k].time == t
  {
    var n := |data| - 1;
    if id == data[n].id {
      assert forall k :: n <= k < |data| ==> data[k].time == t;
    } else {
      PopRunMembers(data[..n], t, id);
      var i :| 0 <= i < n && data[..n][i].id == id && forall k :: i <= k < n ==> data[..n][k].time == t;
      assert data[i].id == id && forall k :: i <= k < |data| ==> data[k].time == t;
    }
  }

  lemma {:induction false} PopAll(data: seq<Event>, t: real)
    requires forall i :: 0 <= i < |data| ==> data[i].time == t
    ensures PopRun(data, t).1 == []
    ensures forall i :: 0 <= i < |data| ==> data[i].id in PopRun(data, t).0
    ensures forall id :: id in PopRun(data, t).0 ==> exists i :: 0 <= i < |data| && data[i].id == id
  {
    if data != [] {
      var n := |data| - 1;
      PopAll(data[..n], t);
      forall i | 0 <= i < |data| ensures data[i].id in PopRun(data, t).0 {
        if i < n { assert data[..n][i] == data[i]; }
      }
      forall id | id in PopRun(data, t).0 ensures exists i :: 0 <= i < |data| && data[i].id == id {
        if id == data[n].id {
        } else {
          var i :| 0 <= i < n && data[..n][i].id == id;
          assert data[i].id == id;
        }
      }
    }
  }

  /** `make_imminent` picks exactly the earliest events if and only if all
      scheduled events are simultaneous: the earliest one is in front, and the
      code only ever reaches the front by popping everything. */
  lemma MakeImminentExact(data: seq<Event>)
    requires IsHeap(data) && UniqueIds(data)
    ensures Imminent(data).0 == Earliest(data) <==>
            forall i :: 0 <= i < |data| ==> data[i].time == data[0].time
  {
    if data != [] {
      forall i | 0 <= i < |data| ensures data[0].time <= data[i].time {
        FrontIsEarliest(data, i);
      }
      assert IsEarliest(data, data[0].time);
      assert data[0].id in Earliest(data);
      if Imminent(data).0 == Earliest(data) {
        PopRunMembers(data, Top(data), data[0].id);
        var i :| 0 <= i < |data| && data[i].id == data[0].id &&
                 forall k :: i <= k < |data| ==> data[k].time == Top(data);
        assert i == 0;
      }
      if forall i :: 0 <= i < |data| ==> data[i].time == data[0].time {
        AllSimultaneous(data);
      }
    }
  }

  lemma AllSimultaneous(data: seq<Event>)
    requires data != [] && forall i :: 0 <= i < |data| ==> data[i].time == data[0].time
    ensures Imminent(data).0 == Earliest(data)
  {
    PopAll(data, Top(data));
    forall i | 0 <= i < |data| ensures IsEarliest(data, data[i].time) {
    }
    forall id ensures id in Imminent(data).0 <==> id in Earliest(data) {
      if id in Imminent(data).0 {
        var i :| 0 <= i < |data| && data[i].id == id;
      }
    }
  }

  /** The position of a component's event, |data| when it has none. */
  function IndexOf(data: seq<Event>, id: nat): (i: nat)
    ensures i <= |data|
    ensures i < |data| ==> data[i].id == id
    ensures forall j :: 0 <= j < i ==> data[j].id != id
  {
    if data == [] || data[0].id == id then 0 else 1 + IndexOf(data[1..], id)
  }

  /** scheduler::remove as written: the slot receives its neighbour and the last
      event is dropped. */
  function RemoveAsWritten(data: seq<Event>, id: nat): (r: seq<Event>)
  {
    var i := IndexOf(data, id);
    if i == |data| then data
    else
      var d := if i + 1 < |data| then data[i := data[i+1]] else data;
      d[..|d|-1]
  }

  ghost function Events(data: seq<Event>): set<Event>
  {
    set e | e in data
  }

  /** The events that should be left. */
  ghost function Others(data: seq<Event>, id: nat): set<Event>
  {
    set e | e in data && e.id != id
  }

  /** `remove` removes just that event if and only if the component has none, or
      its event is one of the last two; otherwise the last event of the list is
      lost and another one is doubled. */
  lemma RemoveExact(data: seq<Event>, id: nat)
    requires UniqueIds(data)
    ensures Events(RemoveAsWritten(data, id)) == Others(data, id) <==>
            IndexOf(data, id) == |data| || IndexOf(data, id) + 2 >= |data|
  {
    var i, n := IndexOf(data, id), |data| - 1;
    var r := RemoveAsWritten(data, id);
    if i == |data| {
      assert Events(data) == Others(data, id);
    } else if i + 2 >= |data| {
      RemoveNearBack(data, id);
    } else {
      assert data[n] in data && data[n].id != id;
      assert data[n] in Others(data, id);
      assert data[n] !in r;
    }
  }

  /** Further in front the event is replaced by the one behind it, which is then
      there twice, and the last event of the list is gone. */
  lemma RemoveDoubles(data: seq<Event>, id: nat)
    requires IndexOf(data, id) + 2 < |data|
    ensures var i := IndexOf(data, id);
            RemoveAsWritten(data, id) == data[..i] + [data[i+1]] + data[i+1..|data|-1]
    ensures UniqueIds(data) ==> !UniqueIds(RemoveAsWritten(data, id))
  {
    var i := IndexOf(data, id);
    var r := RemoveAsWritten(data, id);
    assert r[i] == r[i+1] == data[i+1];
  }

  lemma RemoveNearBack(data: seq<Event>, id: nat)
    requires UniqueIds(data) && IndexOf(data, id) < |data| <= IndexOf(data, id) + 2
    ensures Events(RemoveAsWritten(data, id)) == Others(data, id)
  {
    var i, n := IndexOf(data, id), |data| - 1;
    var r := RemoveAsWritten(data, id);
    assert |r| == n;
    if i == n {
      assert r == data[..n];
    } else {
      assert forall k :: 0 <= k < n ==> r[k] == if k < i then data[k] else data[n];
    }
    forall e ensures e in r <==> e in data && e.id != id {
      if e in r {
        var k :| 0 <= k < |r| && r[k] == e;
        assert e == data[if k < i then k else n];
      }
      if e in data && e.id != id {
        var k :| 0 <= k < |data| && data[k] == e;
        assert r[if k < i then k else i] == e;
      }
    }
  }

  /** Two components due at different times: the model announces the later one. */
  lemma BackIsNotEarliest()
    ensures var data := [Event(1.0, 0), Event(2.0, 1)];
            IsHeap(data) && UniqueIds(data) && Top(data) == 2.0 && IsEarliest(data, 1.0) && Imminent(data).0 == {1}
  {
    var data := [Event(1.0, 0), Event(2.0, 1)];
    assert data[0].time == 1.0 && BelowParent(data, 1);
    assert data[..1] == [Event(1.0, 0)];
    assert PopRun(data[..1], 2.0).0 == {};
    assert PopRun(data, 2.0).0 == {1} + {};
  }

  /** Removing the first of three events loses the last one. */
  lemma RemoveLosesLast()
    ensures RemoveAsWritten([Event(1.0, 0), Event(2.0, 1), Event(3.0, 2)], 0) == [Event(2.0, 1), Event(2.0, 1)]
  {
  }
}
