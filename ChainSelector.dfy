/**
 * The network picker of components/ui/ChainSelector.tsx, where a user
 * chooses the networks they prefer to be paid on. A click on a network
 * hands a new selection to the parent, or nothing.
 */
module ChainSelector {
  import opened Types

  /** `ids.filter(id => id !== chainId)` */
  function Remove(ids: seq<int>, chainId: int): seq<int>
  {
    if ids == [] then []
    else (if ids[0] == chainId then [] else [ids[0]]) + Remove(ids[1..], chainId)
  }

  /**
   * handleChainToggle: the selection passed to `onChange`, or `None` when it
   * is not called. In single mode the clicked network becomes the whole
   * selection; otherwise a selected network is removed unless it is the
   * only entry, and an unselected one is appended.
   */
  function HandleChainToggle(selected: seq<int>, chainId: int, allowMultiple: bool): Option<seq<int>>
  {
    if !allowMultiple then Some([chainId])
    else if chainId in selected then
      if |selected| > 1 then Some(Remove(selected, chainId)) else None
    else Some(selected + [chainId])
  }

  /** Removal drops every copy of the id and keeps every other entry, in order. */
  lemma {:induction false} RemoveSpec(ids: seq<int>, chainId: int)
    ensures forall x :: x in Remove(ids, chainId) <==> x in ids && x != chainId
    ensures chainId in ids ==> |Remove(ids, chainId)| < |ids|
    ensures chainId !in ids ==> Remove(ids, chainId) == ids
    ensures Distinct(ids) ==> Distinct(Remove(ids, chainId))
    ensures Distinct(ids) && chainId in ids ==> |Remove(ids, chainId)| == |ids| - 1
    decreases |ids|
  {
    if ids != [] {
      RemoveSpec(ids[1..], chainId);
      assert forall x :: x in ids <==> x == ids[0] || x in ids[1..];
      DistinctCons(ids);
      var head := if ids[0] == chainId then [] else [ids[0]];
      if Distinct(ids) {
        DistinctAppend(head, Remove(ids[1..], chainId));
      }
    }
  }

  /**
   * Toggling keeps a selection of distinct networks distinct and, in
   * multiple mode, never empties a non-empty one; the clicked network ends
   * up selected exactly when it was not selected before (or in single mode).
   */
  lemma HandleChainToggleSpec(selected: seq<int>, chainId: int, allowMultiple: bool)
    requires Distinct(selected)
    ensures HandleChainToggle(selected, chainId, allowMultiple).Some? ==>
      var next := HandleChainToggle(selected, chainId, allowMultiple).value;
      Distinct(next) && next != [] && (chainId in next <==> !allowMultiple || chainId !in selected)
    ensures HandleChainToggle(selected, chainId, allowMultiple).None? <==>
      allowMultiple && selected == [chainId]
    ensures allowMultiple && chainId !in selected ==>
      HandleChainToggle(selected, chainId, allowMultiple) == Some(selected + [chainId])
    ensures allowMultiple && chainId in selected && |selected| > 1 ==>
      forall x :: x in HandleChainToggle(selected, chainId, allowMultiple).value <==> x in selected && x != chainId
  {
    RemoveSpec(selected, chainId);
    if allowMultiple && chainId !in selected {
      DistinctAppendOne(selected, chainId);
    }
    if allowMultiple && chainId in selected && |selected| <= 1 {
      assert selected == [selected[0]];
    }
    if allowMultiple && selected == [chainId] {
      assert chainId in selected;
    }
    if !allowMultiple {
      DistinctCons([chainId]);
    }
  }

  /** In multiple mode, selecting a new network and clicking it again restores the selection. */
  lemma ToggleTwice(selected: seq<int>, chainId: int)
    requires selected != [] && chainId !in selected
    ensures HandleChainToggle(selected + [chainId], chainId, true) == Some(selected)
  {
    RemoveAppended(selected, chainId);
  }

  lemma {:induction false} RemoveAppended(ids: seq<int>, x: int)
    requires x !in ids
    ensures Remove(ids + [x], x) == ids
    decreases |ids|
  {
    if ids == [] {
      assert Remove([x], x) == [] + Remove([], x);
    } else {
      RemoveAppended(ids[1..], x);
      assert (ids + [x])[1..] == ids[1..] + [x];
      assert ids == [ids[0]] + ids[1..];
    }
  }
}
