/** The node around the TF-aware merge: it keeps the latest map of each robot and publishes complete merges only. */
module MergeMapNode {
  import opened Common
  import opened Grids
  import opened MergeGeometry
  import opened MergeMap
  import opened MergeMarks

  /** The sources that can be merged: a map and a transform for every robot, or nothing. */
  function Complete(maps: seq<Option<Grid>>, transforms: seq<Option<Pose>>): Option<seq<Source>>
    requires |maps| == |transforms|
  {
    if maps == [] then Some([])
    else
      var k := |maps| - 1;
      match (Complete(maps[..k], transforms[..k]), maps[k], transforms[k])
      case (Some(ps), Some(g), Some(t)) => Some(ps + [Source(g, t)])
      case _ => None
  }

  /** All or nothing: every robot contributes its latest map, or none does. */
  lemma {:induction false} CompleteIff(maps: seq<Option<Grid>>, transforms: seq<Option<Pose>>)
    requires |maps| == |transforms|
    ensures Complete(maps, transforms).Some? <==>
            forall k :: 0 <= k < |maps| ==> maps[k].Some? && transforms[k].Some?
    ensures Complete(maps, transforms).Some? ==>
              var ps := Complete(maps, transforms).value;
              |ps| == |maps| && forall k :: 0 <= k < |ps| ==> ps[k] == Source(maps[k].value, transforms[k].value)
  {
    if maps != [] {
      var k := |maps| - 1;
      CompleteIff(maps[..k], transforms[..k]);
      assert forall j :: 0 <= j < k ==> maps[..k][j] == maps[j] && transforms[..k][j] == transforms[j];
    }
  }

  class MergeMapNode {
    var maps: seq<Option<Grid>>

    ghost predicate Valid()
      reads this
    {
      forall k :: 0 <= k < |maps| && maps[k].Some? ==> ValidGrid(maps[k].value)
    }

    constructor (robotCount: nat)
      ensures Valid() && maps == seq(robotCount, _ => None)
    {
      maps := seq(robotCount, _ => None);
    }

    /**
     A robot's map has arrived; `transforms[k]` is what the lookup of the k-th map's frame finds. A map without a
     frame or of the wrong size is dropped. Returns the merged map published, if any.
     */
    method MapCallback(hasFrame: bool, message: Grid, index: nat, transforms: seq<Option<Pose>>)
      returns (published: Option<Merged>)
      requires Valid() && index < |maps| && |transforms| == |maps| && Rigid(message.origin)
      requires forall k :: 0 <= k < |transforms| && transforms[k].Some? ==> Rigid(transforms[k].value)
      modifies this
      ensures Valid()
      ensures !hasFrame || |message.data| != message.width * message.height ==>
                maps == old(maps) && published == None
      ensures hasFrame && |message.data| == message.width * message.height ==>
                && maps == old(maps)[index := Some(message)]
                && (published.Some? <==>
                      && Complete(maps, transforms).Some?
                      && CanvasOf(Complete(maps, transforms).value).Some?)
                && (published.Some? ==> IsMergeOf(published.value, Complete(maps, transforms).value))
    {
      if !hasFrame {
        return None;
      }
      if |message.data| != message.width * message.height {
        return None;
      }
      maps := maps[index := Some(message)];
      published := TryMergeAndPublish(transforms);
    }

    method TryMergeAndPublish(transforms: seq<Option<Pose>>) returns (published: Option<Merged>)
      requires Valid() && |transforms| == |maps|
      requires forall k :: 0 <= k < |transforms| && transforms[k].Some? ==> Rigid(transforms[k].value)
      ensures published.Some? <==>
              Complete(maps, transforms).Some? && CanvasOf(Complete(maps, transforms).value).Some?
      ensures published.Some? ==> IsMergeOf(published.value, Complete(maps, transforms).value)
    {
      hide CanvasOf, IsMergeOf, Complete, ValidGrid, Rigid;
      CompleteIff(maps, transforms);
      for k := 0 to |maps|
        invariant forall j :: 0 <= j < k ==> maps[j].Some?
      {
        if maps[k].None? {
          return None;
        }
      }
      var sources := [];
      for k := 0 to |maps|
        invariant |sources| == k
        invariant forall j :: 0 <= j < k ==>
          transforms[j].Some? && sources[j] == Source(maps[j].value, transforms[j].value)
      {
        if transforms[k].None? {
          return None;
        }
        sources := sources + [Source(maps[k].value, transforms[k].value)];
      }
      assert sources == Complete(maps, transforms).value;
      NoCanvasIff(sources);
      published := BuildMergedMap(sources);
    }
  }
}
