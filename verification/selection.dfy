/** The selection state machine: the ordered list of chosen photos, the Clear
    action, and the add pipeline that admits a picker batch one image at a time
    (capacity check first, then the orientation test, then append). */
module Selection {

  import opened Images

  /** The capacity limit: the add pipeline stops once this many photos are selected. */
  const MaxPhotos: nat := 6

  /** The selected photos in selection order; duplicates are allowed. */
  type Selection = seq<Image>

  /** A session starts with nothing selected. */
  const Initial: Selection := []

  /** The Clear action replaces the selection with the empty one, whatever it held. */
  function Clear(s: Selection): (r: Selection)
    ensures |r| == 0
  {
    []
  }

  /** What one picker batch did to the selection.
      `examined` counts the incoming images that got past the capacity check
      (each was then appended or dropped by the orientation test); `cutOff`
      records that the capacity check failed on some image, which ends the
      stream, so that image and everything after it are never looked at. */
  datatype BatchResult = BatchResult(selection: Selection, examined: nat, cutOff: bool)

  /** The add pipeline as a left fold over the batch. The capacity check reads
      the live count, which already includes the images appended earlier in
      the same batch. */
  function AddBatch(s: Selection, batch: seq<Image>): (r: BatchResult)
    ensures r.examined <= |batch|
    ensures r.cutOff <==> r.examined < |batch|
    ensures r.cutOff ==> |r.selection| >= MaxPhotos
    ensures |s| <= |r.selection|
    decreases |batch|
  {
    if batch == [] then
      BatchResult(s, 0, false)
    else if |s| >= MaxPhotos then
      BatchResult(s, 0, true)
    else
      var next := if IsLandscape(batch[0]) then s + [batch[0]] else s;
      var rest := AddBatch(next, batch[1..]);
      BatchResult(rest.selection, rest.examined + 1, rest.cutOff)
  }

  /** How many more photos fit under the limit. */
  function Room(s: Selection): nat {
    if |s| < MaxPhotos then MaxPhotos - |s| else 0
  }

  /** Reference description of a batch's effect, independent of the fold:
      the first `Room(s)` landscape images of the batch, in batch order. */
  function Admitted(s: Selection, batch: seq<Image>): (r: seq<Image>)
    ensures |r| <= Room(s)
    ensures forall i :: 0 <= i < |r| ==> IsLandscape(r[i])
  {
    var l := Landscapes(batch);
    assert forall i :: 0 <= i < |l| ==> l[i] in l;
    if |l| <= Room(s) then l else l[..Room(s)]
  }

  /** The fold appends exactly the landscape images among the examined inputs. */
  lemma {:induction false} AddBatchAppendsExaminedLandscapes(s: Selection, batch: seq<Image>)
    ensures AddBatch(s, batch).selection == s + Landscapes(batch[..AddBatch(s, batch).examined])
    decreases |batch|
  {
    var r := AddBatch(s, batch);
    if batch == [] || |s| >= MaxPhotos {
      assert batch[..r.examined] == [];
      assert s + [] == s;
    } else {
      var x := batch[0];
      var next := if IsLandscape(x) then s + [x] else s;
      var rest := AddBatch(next, batch[1..]);
      AddBatchAppendsExaminedLandscapes(next, batch[1..]);
      var e := batch[..r.examined];
      assert e[0] == x;
      assert e[1..] == batch[1..][..rest.examined];
      if IsLandscape(x) {
        assert Landscapes(e) == [x] + Landscapes(e[1..]);
        assert s + [x] + Landscapes(e[1..]) == s + ([x] + Landscapes(e[1..]));
      } else {
        assert Landscapes(e) == Landscapes(e[1..]);
      }
    }
  }

  /** The fold agrees with the reference description on every input. */
  lemma {:induction false} AddBatchMatchesAdmitted(s: Selection, batch: seq<Image>)
    ensures AddBatch(s, batch).selection == s + Admitted(s, batch)
    decreases |batch|
  {
    var l := Landscapes(batch);
    if batch == [] {
      assert s + [] == s;
    } else if |s| >= MaxPhotos {
      assert Admitted(s, batch) == [];
      assert s + [] == s;
    } else {
      var x := batch[0];
      var tail := batch[1..];
      var lt := Landscapes(tail);
      if IsLandscape(x) {
        AddBatchMatchesAdmitted(s + [x], tail);
        assert Room(s + [x]) == Room(s) - 1;
        assert l == [x] + lt;
        var a := Admitted(s + [x], tail);
        assert Admitted(s, batch) == [x] + a by {
          if |l| <= Room(s) {
            assert |lt| <= Room(s + [x]);
          } else {
            assert l[..Room(s)] == [x] + lt[..Room(s + [x])];
          }
        }
        assert s + [x] + a == s + ([x] + a);
      } else {
        AddBatchMatchesAdmitted(s, tail);
        assert l == lt;
      }
    }
  }

  /** The earlier selection is kept as an unchanged prefix, and everything after
      it is a landscape image of the batch. */
  lemma AddBatchExtendsSelection(s: Selection, batch: seq<Image>)
    ensures var r := AddBatch(s, batch).selection;
      && r[..|s|] == s
      && (forall i :: |s| <= i < |r| ==> IsLandscape(r[i]) && r[i] in batch)
  {
    AddBatchMatchesAdmitted(s, batch);
    var a := Admitted(s, batch);
    var r := AddBatch(s, batch).selection;
    assert r == s + a;
    forall i | |s| <= i < |r|
      ensures IsLandscape(r[i]) && r[i] in batch
    {
      assert r[i] == a[i - |s|];
      var l := Landscapes(batch);
      assert a[i - |s|] in l;
    }
  }

  /** Capacity is never exceeded: a selection within the limit stays within it. */
  lemma AddBatchWithinLimit(s: Selection, batch: seq<Image>)
    requires |s| <= MaxPhotos
    ensures |AddBatch(s, batch).selection| <= MaxPhotos
  {
    AddBatchMatchesAdmitted(s, batch);
  }

  /** A batch with no landscape image leaves the selection as it was. */
  lemma AddBatchOfPortraits(s: Selection, batch: seq<Image>)
    requires forall i :: 0 <= i < |batch| ==> !IsLandscape(batch[i])
    ensures AddBatch(s, batch).selection == s
  {
  }

  /** Once the selection is full nothing is examined: the first incoming image
      ends the stream. */
  lemma AddBatchWhenFull(s: Selection, batch: seq<Image>)
    requires |s| >= MaxPhotos
    ensures AddBatch(s, batch).selection == s
    ensures AddBatch(s, batch).examined == 0
  {
  }

  /** Feeding a batch in two parts has the same effect as feeding it at once. */
  lemma {:induction false} AddBatchConcat(s: Selection, a: seq<Image>, b: seq<Image>)
    ensures AddBatch(s, a + b).selection == AddBatch(AddBatch(s, a).selection, b).selection
    decreases |a|
  {
    if a == [] {
      assert a + b == b;
    } else if |s| >= MaxPhotos {
      AddBatchWhenFull(s, b);
    } else {
      assert (a + b)[0] == a[0];
      assert (a + b)[1..] == a[1..] + b;
      var next := if IsLandscape(a[0]) then s + [a[0]] else s;
      AddBatchConcat(next, a[1..], b);
    }
  }

  /** Everything that arrives after the selection has filled up is ignored. */
  lemma AddBatchIgnoresInputAfterFull(s: Selection, batch: seq<Image>, later: seq<Image>)
    requires |AddBatch(s, batch).selection| >= MaxPhotos
    ensures AddBatch(s, batch + later).selection == AddBatch(s, batch).selection
  {
    AddBatchConcat(s, batch, later);
    AddBatchWhenFull(AddBatch(s, batch).selection, later);
  }
}
