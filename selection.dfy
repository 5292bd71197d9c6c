/** client/src/contexts/SelectionContext.tsx: the set of test outputs the
    dashboard has selected. Each operation replaces `selectedIds` with a new
    set, as the React state setter does. */
module Selection {
  /** The set `toggleSelection(id)` leaves behind. */
  function Toggled(s: set<string>, id: string): set<string>
  {
    if id in s then s - {id} else s + {id}
  }

  /** `new Set(ids)` */
  function SetOf(ids: seq<string>): set<string>
  {
    set i | 0 <= i < |ids| :: ids[i]
  }

  /** Toggling flips the membership of `id` and of nothing else. */
  lemma ToggleFlipsOnlyId(s: set<string>, id: string, other: string)
    ensures id in Toggled(s, id) <==> id !in s
    ensures other != id ==> (other in Toggled(s, id) <==> other in s)
  {
  }

  /** Toggling the same id twice gives the original selection back. */
  lemma ToggleTwice(s: set<string>, id: string)
    ensures Toggled(Toggled(s, id), id) == s
  {
  }

  /** The size moves by exactly one. */
  lemma ToggleSize(s: set<string>, id: string)
    ensures id in s ==> |Toggled(s, id)| == |s| - 1
    ensures id !in s ==> |Toggled(s, id)| == |s| + 1
  {
  }

  /** `new Set(ids)` holds exactly the listed ids, once each, whatever
      their order and repetitions. */
  lemma {:induction false} SetOfSpec(ids: seq<string>, x: string)
    ensures x in SetOf(ids) <==> x in ids
    ensures |SetOf(ids)| <= |ids|
    ensures SetOf(ids + ids) == SetOf(ids)
    decreases |ids|
  {
    if ids != [] {
      var init := ids[..|ids| - 1];
      SetOfSpec(init, x);
      assert SetOf(ids) == SetOf(init) + {ids[|ids| - 1]} by {
        forall y | y in SetOf(ids) ensures y in SetOf(init) + {ids[|ids| - 1]} {
          var i :| 0 <= i < |ids| && ids[i] == y;
          if i < |ids| - 1 {
            assert init[i] == y;
          }
        }
        forall y | y in SetOf(init) ensures y in SetOf(ids) {
          var i :| 0 <= i < |init| && init[i] == y;
          assert ids[i] == y;
        }
      }
      assert ids == init + [ids[|ids| - 1]];
    }
    assert SetOf(ids + ids) == SetOf(ids) by {
      forall y | y in SetOf(ids + ids) ensures y in SetOf(ids) {
        var i :| 0 <= i < |ids + ids| && (ids + ids)[i] == y;
        if i >= |ids| {
          assert ids[i - |ids|] == y;
        } else {
          assert ids[i] == y;
        }
      }
      forall y | y in SetOf(ids) ensures y in SetOf(ids + ids) {
        var i :| 0 <= i < |ids| && ids[i] == y;
        assert (ids + ids)[i] == y;
      }
    }
  }

  /** `SelectionProvider`'s state and the four operations it offers. */
  class SelectionProvider {
    var selectedIds: set<string>

    /** `useState(new Set())`: nothing is selected at first. */
    constructor()
      ensures selectedIds == {}
    {
      selectedIds := {};
    }

    /** `isSelected(id)` */
    predicate IsSelected(id: string)
      reads this
    {
      id in selectedIds
    }

    /** `toggleSelection(id)`: copy the set, then delete `id` from the copy
        if it holds it and add it otherwise. */
    method ToggleSelection(id: string)
      modifies this
      ensures selectedIds == Toggled(old(selectedIds), id)
      ensures IsSelected(id) <==> !old(IsSelected(id))
    {
      var next := selectedIds;
      if id in next {
        next := next - {id};
      } else {
        next := next + {id};
      }
      selectedIds := next;
    }

    /** `selectAll(ids)`: the previous selection is discarded. */
    method SelectAll(ids: seq<string>)
      modifies this
      ensures selectedIds == SetOf(ids)
      ensures forall id :: IsSelected(id) <==> id in ids
    {
      selectedIds := SetOf(ids);
      forall id ensures IsSelected(id) <==> id in ids {
        SetOfSpec(ids, id);
      }
    }

    /** `unselectAll()` */
    method UnselectAll()
      modifies this
      ensures selectedIds == {}
      ensures forall id :: !IsSelected(id)
    {
      selectedIds := {};
    }
  }
}
