/** The group/ungroup toggle of the canvas (`areShapesGrouped`, `handleGroup` in src/app/components/Canvas.tsx). */
module Grouping {
  import opened Wrappers
  import opened Shapes

  /** `shapes.find(s => s.id === id)?.groupId`: the group of the first shape with that id, `None` when there is none. */
  function GroupIdOf(shapes: seq<Shape>, id: string): (r: Option<string>)
    ensures id !in Ids(shapes) ==> r == None
    ensures id in Ids(shapes) ==>
      exists k :: 0 <= k < |shapes| && shapes[k].id == id && shapes[k].groupId == r &&
        forall j :: 0 <= j < k ==> shapes[j].id != id
  {
    if |shapes| == 0 then None
    else if shapes[0].id == id then shapes[0].groupId
    else
      var r := GroupIdOf(shapes[1..], id);
      FirstMatchInTail(shapes, id, r);
      r
  }

  /** A first match of `id` in the tail of the scene is its first match in the scene when the head does not carry `id`. */
  lemma FirstMatchInTail(shapes: seq<Shape>, id: string, g: Option<string>)
    requires |shapes| > 0 && shapes[0].id != id
    requires id !in Ids(shapes[1..]) ==> g == None
    requires id in Ids(shapes[1..]) ==>
      exists k :: 0 <= k < |shapes[1..]| && shapes[1..][k].id == id && shapes[1..][k].groupId == g &&
        forall j :: 0 <= j < k ==> shapes[1..][j].id != id
    ensures id !in Ids(shapes) ==> g == None
    ensures id in Ids(shapes) ==>
      exists k :: 0 <= k < |shapes| && shapes[k].id == id && shapes[k].groupId == g &&
        forall j :: 0 <= j < k ==> shapes[j].id != id
  {
    var tail := shapes[1..];
    if id in Ids(shapes) {
      var i :| 0 <= i < |shapes| && Ids(shapes)[i] == id;
      assert Ids(tail)[i - 1] == id;
      var k :| 0 <= k < |tail| && tail[k].id == id && tail[k].groupId == g &&
        forall j :: 0 <= j < k ==> tail[j].id != id;
      assert shapes[k + 1] == tail[k];
      assert forall j :: 1 <= j < k + 1 ==> shapes[j] == tail[j - 1];
    } else {
      assert id !in Ids(tail) by {
        assert forall j :: 0 <= j < |tail| ==> Ids(tail)[j] == Ids(shapes)[j + 1];
      }
    }
  }

  /** When every shape carrying `id` has group `g`, the lookup of `id` answers `g`. */
  lemma {:induction false} GroupIdOfUniform(shapes: seq<Shape>, id: string, g: Option<string>)
    requires id in Ids(shapes)
    requires forall k :: 0 <= k < |shapes| && shapes[k].id == id ==> shapes[k].groupId == g
    ensures GroupIdOf(shapes, id) == g
  {
    if shapes[0].id != id {
      var k :| 0 <= k < |shapes| && Ids(shapes)[k] == id;
      assert Ids(shapes[1..])[k - 1] == id;
      GroupIdOfUniform(shapes[1..], id, g);
    }
  }

  /**
   * `areShapesGrouped()`: every selected id resolves to the same truthy group id
   * (vacuously true for an empty selection; false when a selected id names no shape).
   */
  predicate AreShapesGrouped(shapes: seq<Shape>, sel: seq<string>) {
    forall i :: 0 <= i < |sel| ==>
      Truthy(GroupIdOf(shapes, sel[i])) && GroupIdOf(shapes, sel[i]) == GroupIdOf(shapes, sel[0])
  }

  /** Every selected shape gets group `g`; the others are untouched. */
  function SetGroup(shapes: seq<Shape>, sel: seq<string>, g: Option<string>): (r: seq<Shape>)
    ensures |r| == |shapes| && Ids(r) == Ids(shapes)
    ensures forall i :: 0 <= i < |r| && shapes[i].id !in sel ==> r[i] == shapes[i]
    ensures forall i :: 0 <= i < |r| && shapes[i].id in sel ==> r[i] == shapes[i].(groupId := g)
  {
    var r := seq(|shapes|, i requires 0 <= i < |shapes| =>
      if shapes[i].id in sel then shapes[i].(groupId := g) else shapes[i]);
    assert Ids(r) == Ids(shapes);
    r
  }

  /** `'group-' + Date.now()`. */
  function NewGroupId(now: nat): (r: string)
    ensures r != ""
  {
    "group-" + DecimalString(now)
  }

  /**
   * `handleGroup`: if the selection already forms one group its shapes are
   * ungrouped (group set to null), otherwise they all join a new group.
   */
  function ToggleGroup(shapes: seq<Shape>, sel: seq<string>, now: nat): (r: seq<Shape>)
    ensures |r| == |shapes| && Ids(r) == Ids(shapes)
    ensures forall i :: 0 <= i < |r| && shapes[i].id !in sel ==> r[i] == shapes[i]
    ensures forall i :: 0 <= i < |r| && shapes[i].id in sel ==>
      r[i] == shapes[i].(groupId := if AreShapesGrouped(shapes, sel) then None else Some(NewGroupId(now)))
  {
    if !AreShapesGrouped(shapes, sel) then SetGroup(shapes, sel, Some(NewGroupId(now)))
    else SetGroup(shapes, sel, None)
  }

  /**
   * Grouping a selection that names existing shapes makes it one group, and
   * toggling again ungroups exactly those shapes; shapes that had no group
   * before end as they started.
   */
  lemma GroupThenUngroup(shapes: seq<Shape>, sel: seq<string>, now: nat, later: nat)
    requires !AreShapesGrouped(shapes, sel)
    requires forall i :: 0 <= i < |sel| ==> sel[i] in Ids(shapes)
    ensures AreShapesGrouped(ToggleGroup(shapes, sel, now), sel)
    ensures ToggleGroup(ToggleGroup(shapes, sel, now), sel, later) == SetGroup(shapes, sel, None)
    ensures (forall i :: 0 <= i < |shapes| && shapes[i].id in sel ==> shapes[i].groupId == None) ==>
      ToggleGroup(ToggleGroup(shapes, sel, now), sel, later) == shapes
  {
    var g := Some(NewGroupId(now));
    var once := ToggleGroup(shapes, sel, now);
    forall i | 0 <= i < |sel| ensures GroupIdOf(once, sel[i]) == g {
      assert sel[i] in Ids(once);
      GroupIdOfUniform(once, sel[i], g);
    }
    assert AreShapesGrouped(once, sel);
    var twice := ToggleGroup(once, sel, later);
    assert twice == SetGroup(shapes, sel, None);
  }
}
