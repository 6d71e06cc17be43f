// sensors/multihal.cpp: global sensor handles and the two maps between them and the
// handles of the sub-modules.

module HandleMaps {
  import opened SensorEvents
  import MultiHalModel
  import MultiHalProofs

  datatype FullHandle = FullHandle(moduleIndex: int, localHandle: int)

  // The last place of a handle in the order of assignment.
  ghost predicate LastAt(given: seq<FullHandle>, full: FullHandle, i: int) {
    0 <= i < |given| && given[i] == full && forall j :: i < j < |given| ==> given[j] != full
  }

  class HandleTable {
    var globalToFull: map<int, FullHandle>
    var fullToGlobal: map<FullHandle, int>
    var nextGlobalHandle: int
    ghost var given: seq<FullHandle>    // in the order of assignment

    ghost predicate Valid()
      reads this
    {
      && nextGlobalHandle == |given| + 1
      && (forall g :: g in globalToFull <==> 1 <= g <= |given|)
      && (forall g :: g in globalToFull ==> globalToFull[g] == given[g - 1])
      && (forall f :: f in fullToGlobal <==> f in given)
      && (forall f :: f in fullToGlobal ==> LastAt(given, f, fullToGlobal[f] - 1))
    }

    constructor ()
      ensures Valid() && given == []
    {
      globalToFull, fullToGlobal, nextGlobalHandle, given := map[], map[], 1, [];
    }

    method AssignGlobalHandle(moduleIndex: int, localHandle: int) returns (handle: int)
      requires Valid()
      modifies this
      ensures Valid() && handle == |old(given)| + 1
      ensures given == old(given) + [FullHandle(moduleIndex, localHandle)]
    {
      handle := nextGlobalHandle;
      nextGlobalHandle := nextGlobalHandle + 1;
      var full := FullHandle(moduleIndex, localHandle);
      fullToGlobal := fullToGlobal[full := handle];
      globalToFull := globalToFull[handle := full];
      given := given + [full];
    }

    method GetLocalHandle(handle: int) returns (localHandle: int)
      requires Valid()
      ensures localHandle == if 1 <= handle <= |given| then given[handle - 1].localHandle else -1
    {
      localHandle := if handle in globalToFull then globalToFull[handle].localHandle else -1;
    }

    method GetModuleIndex(handle: int) returns (moduleIndex: int)
      requires Valid()
      ensures moduleIndex == if 1 <= handle <= |given| then given[handle - 1].moduleIndex else -1
    {
      moduleIndex := if handle in globalToFull then globalToFull[handle].moduleIndex else -1;
    }

    // The latest global handle of a sub-module's handle, or -1.
    method GetGlobalHandle(full: FullHandle) returns (handle: int)
      requires Valid()
      ensures full !in given ==> handle == -1
      ensures full in given ==> LastAt(given, full, handle - 1)
    {
      handle := if full in fullToGlobal then fullToGlobal[full] else -1;
    }

    // The maps are inverse to each other exactly when no handle was assigned twice.
    lemma InverseExact()
      requires Valid()
      ensures (forall g :: g in globalToFull ==> globalToFull[g] in fullToGlobal && fullToGlobal[globalToFull[g]] == g)
        <==> forall i, j :: 0 <= i < j < |given| ==> given[i] != given[j]
    {
      forall g | g in globalToFull
        ensures globalToFull[g] in fullToGlobal && LastAt(given, given[g - 1], fullToGlobal[globalToFull[g]] - 1)
      {
        assert given[g - 1] in given;
      }
      if forall g :: g in globalToFull ==> fullToGlobal[globalToFull[g]] == g {
        forall i, j | 0 <= i < j < |given| ensures given[i] != given[j] {
          assert i + 1 in globalToFull && LastAt(given, given[i], i);
        }
      }
    }

    // The two maps as the polling context uses them.
    function Sensors(oneShot: set<int>): MultiHalModel.Sensors
      reads this
    {
      MultiHalModel.Sensors(
        map f | f in fullToGlobal && f.moduleIndex >= 0 :: (f.moduleIndex, f.localHandle) := fullToGlobal[f],
        map g | g in globalToFull && globalToFull[g].moduleIndex >= 0 :: globalToFull[g].moduleIndex,
        oneShot)
    }

    // What the caller of poll gets for a reading of module m: the reading under the global
    // handle its sensor was given last, and nothing if it was given none.  A global handle
    // leads to the module it was given for.
    lemma ReadingsByTable(oneShot: set<int>, m: nat, local: int, payload: int)
      requires Valid()
      ensures var seen := MultiHalProofs.Seen(Sensors(oneShot).global, m, Reading(local, payload));
        if FullHandle(m, local) in given
        then exists i :: LastAt(given, FullHandle(m, local), i) && seen == [Reading(i + 1, payload)] else seen == []
      ensures forall g :: g in Sensors(oneShot).modules <==> 1 <= g <= |given| && given[g - 1].moduleIndex >= 0
      ensures forall g :: g in Sensors(oneShot).modules ==> Sensors(oneShot).modules[g] == given[g - 1].moduleIndex
    {
      var full, global := FullHandle(m, local), Sensors(oneShot).global;
      assert (m, local) in global <==> full in fullToGlobal;
      if full in given {
        assert LastAt(given, full, fullToGlobal[full] - 1) && global[(m, local)] == fullToGlobal[full];
      }
    }
  }
}
