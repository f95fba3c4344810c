/** The kinematic chain of the robot arm: a singly linked list of joints,
    each holding an offset from its parent's anchor (`m_position`), a local
    rotation (`m_angle`) and an optional, exclusively owned child.

    The first half of the module states what the chain computes as functions
    over the sequence of its segments, root first; the class `Joint` is the
    linked structure itself, and every one of its operations is tied to
    those functions through the ghost fields `Segments` and `Repr`. */
module IKStructure {
  import opened Geometry

  /** One joint's own data, without its child. */
  datatype Segment = Segment(position: Vec3, angle: Rot)

  /** A joint that Resize appends: offset (1.5, 0, 0), no rotation. */
  const DefaultSegment: Segment := Segment(Vec3(1.5, 0.0, 0.0), Identity)

  // ---------------------------------------------------------------------
  // Resize

  /** The chain after `Resize(n)` on its root: the root followed by exactly
      n descendants, reusing existing joints and appending default ones. */
  function Resized(segs: seq<Segment>, n: nat): (r: seq<Segment>)
    requires |segs| > 0
    ensures |r| == n + 1
    ensures r[0] == segs[0]
    decreases n
  {
    if n == 0 then [segs[0]]
    else [segs[0]] + Resized(if |segs| > 1 then segs[1..] else [DefaultSegment], n - 1)
  }

  /** Joint i of a resized chain is the old joint i when there was one,
      and a default joint otherwise. */
  lemma {:induction false} ResizedAt(segs: seq<Segment>, n: nat, i: nat)
    requires |segs| > 0 && i <= n
    ensures Resized(segs, n)[i] == if i < |segs| then segs[i] else DefaultSegment
    decreases n
  {
    if i > 0 {
      var rest := if |segs| > 1 then segs[1..] else [DefaultSegment];
      ResizedAt(rest, n - 1, i - 1);
    }
  }

  /** Resizing to a count no larger than the previous one gives the same
      chain as resizing the original directly; in particular Resize(k)
      twice is Resize(k) once. */
  lemma ResizedTwice(segs: seq<Segment>, m: nat, n: nat)
    requires |segs| > 0 && n <= m
    ensures Resized(Resized(segs, m), n) == Resized(segs, n)
  {
    var once := Resized(segs, m);
    forall i | 0 <= i <= n
      ensures Resized(once, n)[i] == Resized(segs, n)[i]
    {
      ResizedAt(once, n, i);
      ResizedAt(segs, m, i);
      ResizedAt(segs, n, i);
    }
  }

  lemma ResizedIdempotent(segs: seq<Segment>, n: nat)
    requires |segs| > 0
    ensures Resized(Resized(segs, n), n) == Resized(segs, n)
  {
    ResizedTwice(segs, n, n);
  }

  /** Resizing to the current number of descendants changes nothing. */
  lemma {:induction false} ResizedToOwnLength(segs: seq<Segment>)
    requires |segs| > 0
    ensures Resized(segs, |segs| - 1) == segs
    decreases |segs|
  {
    if |segs| > 1 {
      ResizedToOwnLength(segs[1..]);
      assert segs == [segs[0]] + segs[1..];
    }
  }

  // ---------------------------------------------------------------------
  // Forward kinematics

  /** The tip of the chain in the frame of the root's parent: each joint
      rotates what lies beyond it by its angle and shifts it by its offset. */
  function EndPoint(segs: seq<Segment>): Vec3
    requires |segs| > 0
  {
    if |segs| == 1 then segs[0].position
    else Add(segs[0].position, Apply(segs[0].angle, EndPoint(segs[1..])))
  }

  function SumOfPositions(segs: seq<Segment>): Vec3 {
    if segs == [] then Zero else Add(segs[0].position, SumOfPositions(segs[1..]))
  }

  predicate Unrotated(segs: seq<Segment>) {
    forall i :: 0 <= i < |segs| ==> segs[i].angle == Identity
  }

  /** With every rotation at identity the tip is the sum of all offsets. */
  lemma {:induction false} EndPointUnrotated(segs: seq<Segment>)
    requires |segs| > 0 && Unrotated(segs)
    ensures EndPoint(segs) == SumOfPositions(segs)
  {
    if |segs| > 1 {
      EndPointUnrotated(segs[1..]);
      ApplyIdentity(EndPoint(segs[1..]));
    }
  }

  /** Three unrotated segments of the same offset p end at 3p. */
  lemma EndPointOfStraightArm(p: Vec3)
    ensures var s := Segment(p, Identity);
            EndPoint([s, s, s]) == Scale(3.0, p)
  {
    var s := Segment(p, Identity);
    var arm := [s, s, s];
    assert arm[1..] == [s, s] && arm[1..][1..] == [s];
    assert EndPoint([s]) == p;
    ApplyIdentity(p);
    assert EndPoint([s, s]) == Add(p, Apply(Identity, p)) == Add(p, p);
    ApplyIdentity(Add(p, p));
    assert EndPoint(arm) == Add(p, Apply(Identity, Add(p, p))) == Add(p, Add(p, p));
  }

  /** Three segments of offset (2, 0, 0) at identity end at (6, 0, 0). */
  lemma EndPointOfThreeTwos()
    ensures var s := Segment(Vec3(2.0, 0.0, 0.0), Identity);
            EndPoint([s, s, s]) == Vec3(6.0, 0.0, 0.0)
  {
    EndPointOfStraightArm(Vec3(2.0, 0.0, 0.0));
  }

  // ---------------------------------------------------------------------
  // World coordinates

  /** The world-space anchor of every joint, root first, when the root's
      parent frame is rotated by `rotation` and then shifted by
      `translation`.  Each joint's anchor becomes the translation of its
      child's frame, and its angle is composed onto the accumulated
      rotation. */
  function WorldPoints(segs: seq<Segment>, translation: Vec3, rotation: Rot): (r: seq<Vec3>)
    ensures |r| == |segs|
  {
    if segs == [] then []
    else
      var world := Add(translation, Apply(rotation, segs[0].position));
      [world] + WorldPoints(segs[1..], world, Compose(rotation, segs[0].angle))
  }

  /** The last world point is the tip that EndPoint computes, carried into
      world space by the same frame: the coordinates and the end point agree. */
  lemma {:induction false} WorldPointsEndAtEndPoint(segs: seq<Segment>, translation: Vec3, rotation: Rot)
    requires |segs| > 0
    ensures WorldPoints(segs, translation, rotation)[|segs| - 1]
         == Add(translation, Apply(rotation, EndPoint(segs)))
  {
    if |segs| > 1 {
      var s := segs[0];
      var world := Add(translation, Apply(rotation, s.position));
      var rest := segs[1..];
      WorldPointsEndAtEndPoint(rest, world, Compose(rotation, s.angle));
      var tail := EndPoint(rest);
      ApplyCompose(rotation, s.angle, tail);
      ApplyAdd(rotation, s.position, Apply(s.angle, tail));
      assert WorldPoints(segs, translation, rotation)[|segs| - 1]
          == WorldPoints(rest, world, Compose(rotation, s.angle))[|rest| - 1];
    }
  }

  /** From the identity frame the first point is the root's own offset and
      the last one is the end point. */
  lemma WorldPointsFromOrigin(segs: seq<Segment>)
    requires |segs| > 0
    ensures WorldPoints(segs, Zero, Identity)[0] == segs[0].position
    ensures WorldPoints(segs, Zero, Identity)[|segs| - 1] == EndPoint(segs)
  {
    ApplyIdentity(segs[0].position);
    WorldPointsEndAtEndPoint(segs, Zero, Identity);
    ApplyIdentity(EndPoint(segs));
  }

  // ---------------------------------------------------------------------
  // One CCD sweep

  /** The target expressed in the joint's own frame: undo the offset, then
      the rotation. */
  function LocalTarget(s: Segment, target: Vec3): Vec3 {
    Apply(Inverse(s.angle), Sub(target, s.position))
  }

  datatype Swept = Swept(segs: seq<Segment>, end: Vec3)

  /** One cyclic-coordinate-descent sweep: recurse to the tip with the
      target in each joint's frame, then on the way back rotate each joint
      by `between(childEnd, localTarget)` (glm::rotation of the two
      normalised directions) and report the end point in the parent frame,
      which is the forward kinematics of the new chain. */
  function Sweep(segs: seq<Segment>, target: Vec3, between: (Vec3, Vec3) -> Rot): (r: Swept)
    requires |segs| > 0
    ensures |r.segs| == |segs|
    ensures r.end == EndPoint(r.segs)
  {
    if |segs| == 1 then Swept(segs, segs[0].position)
    else
      var s := segs[0];
      var local := LocalTarget(s, target);
      var sub := Sweep(segs[1..], local, between);
      var angle := Compose(s.angle, between(sub.end, local));
      var r := Swept([Segment(s.position, angle)] + sub.segs, Add(s.position, Apply(angle, sub.end)));
      assert r.segs[1..] == sub.segs;
      r
  }

  /** A sweep rewrites angles only: every offset stays where it was, and
      the tip, which has no child, keeps its rotation too. */
  lemma SweepKeepsOffsets(segs: seq<Segment>, target: Vec3, between: (Vec3, Vec3) -> Rot)
    requires |segs| > 0
    ensures var r := Sweep(segs, target, between).segs;
            && (forall i :: 0 <= i < |segs| ==> r[i].position == segs[i].position)
            && r[|segs| - 1] == segs[|segs| - 1]
  {
    forall i | 0 <= i < |segs|
      ensures Sweep(segs, target, between).segs[i].position == segs[i].position
    {
      SweepKeepsOffsetAt(segs, target, between, i);
    }
    SweepKeepsTip(segs, target, between);
  }

  lemma {:induction false} SweepKeepsOffsetAt(segs: seq<Segment>, target: Vec3, between: (Vec3, Vec3) -> Rot, i: nat)
    requires i < |segs|
    ensures Sweep(segs, target, between).segs[i].position == segs[i].position
    decreases i
  {
    if i > 0 {
      var local := LocalTarget(segs[0], target);
      SweepKeepsOffsetAt(segs[1..], local, between, i - 1);
      SweepStep(segs, target, between);
    }
  }

  lemma {:induction false} SweepKeepsTip(segs: seq<Segment>, target: Vec3, between: (Vec3, Vec3) -> Rot)
    requires |segs| > 0
    ensures Sweep(segs, target, between).segs[|segs| - 1] == segs[|segs| - 1]
    decreases |segs|
  {
    if |segs| > 1 {
      var local := LocalTarget(segs[0], target);
      SweepKeepsTip(segs[1..], local, between);
      SweepStep(segs, target, between);
    }
  }

  /** A chain of one joint is left as it is and reports its own offset. */
  lemma SweepOfEndEffector(segs: seq<Segment>, target: Vec3, between: (Vec3, Vec3) -> Rot)
    requires |segs| == 1
    ensures Sweep(segs, target, between) == Swept(segs, segs[0].position)
  {
  }

  /** One step of the sweep at a joint that has a child. */
  lemma SweepStep(segs: seq<Segment>, target: Vec3, between: (Vec3, Vec3) -> Rot)
    requires |segs| >= 2
    ensures var s := segs[0];
            var local := LocalTarget(s, target);
            var sub := Sweep(segs[1..], local, between);
            var angle := Compose(s.angle, between(sub.end, local));
            Sweep(segs, target, between)
              == Swept([Segment(s.position, angle)] + sub.segs, Add(s.position, Apply(angle, sub.end)))
  {
  }

  /** `between` turns a nonzero vector onto the direction of another
      nonzero vector, as glm::rotation does for normalised arguments. */
  ghost predicate RotatesOnto(between: (Vec3, Vec3) -> Rot) {
    forall u: Vec3, v: Vec3 :: u != Zero && v != Zero ==>
      exists k: real :: k > 0.0 && Apply(between(u, v), u) == Scale(k, v)
  }

  /** What one CCD step achieves at a joint: after the sweep, the end point
      lies on the ray from the joint's anchor towards the target, unless
      the target sits on the anchor or the child's end point is the zero
      vector (the degenerate inputs of glm::normalize).  Applied to a
      suffix of the chain with its local target, this holds at every joint. */
  lemma SweepAimsAtTarget(segs: seq<Segment>, target: Vec3, between: (Vec3, Vec3) -> Rot)
    requires |segs| >= 2
    requires Orthonormal(segs[0].angle)
    requires RotatesOnto(between)
    ensures var s := segs[0];
            var childEnd := Sweep(segs[1..], LocalTarget(s, target), between).end;
            childEnd != Zero && target != s.position ==>
              exists k: real :: k > 0.0 &&
                Sub(Sweep(segs, target, between).end, s.position) == Scale(k, Sub(target, s.position))
  {
    var s := segs[0];
    var local := LocalTarget(s, target);
    var childEnd := Sweep(segs[1..], local, between).end;
    var aim := Sub(target, s.position);
    if childEnd != Zero && aim != Zero {
      ApplyInverseOrthonormal(s.angle, aim);
      assert local != Zero;
      var shift := between(childEnd, local);
      var k: real :| k > 0.0 && Apply(shift, childEnd) == Scale(k, local);
      TurnedTowards(s, shift, childEnd, local, k);
      assert Sweep(segs, target, between).end == Add(s.position, Apply(Compose(s.angle, shift), childEnd));
    }
  }

  /** The geometric step of SweepAimsAtTarget: if the correction turns the
      child's end point onto the local target, the corrected joint turns it
      onto the target in the parent's frame. */
  lemma TurnedTowards(s: Segment, shift: Rot, childEnd: Vec3, local: Vec3, k: real)
    requires Apply(shift, childEnd) == Scale(k, local)
    ensures Sub(Add(s.position, Apply(Compose(s.angle, shift), childEnd)), s.position)
         == Scale(k, Apply(s.angle, local))
  {
    ApplyCompose(s.angle, shift, childEnd);
    ApplyScale(s.angle, k, local);
  }

  // ---------------------------------------------------------------------
  // The linked chain

  class Joint {
    var position: Vec3
    var angle: Rot
    var child: Joint?

    /** The segments from this joint to the tip, and the joints they live in. */
    ghost var Segments: seq<Segment>
    ghost var Repr: set<object>

    ghost predicate Valid()
      reads this, Repr
      decreases Repr
    {
      && this in Repr
      && (child == null ==> Repr == {this} && Segments == [Segment(position, angle)])
      && (child != null ==>
            && child in Repr && child.Repr <= Repr && this !in child.Repr
            && Repr == {this} + child.Repr
            && child.Valid()
            && Segments == [Segment(position, angle)] + child.Segments)
    }

    constructor (position: Vec3, angle: Rot, child: Joint?)
      requires child != null ==> child.Valid()
      ensures Valid()
      ensures this.position == position && this.angle == angle && this.child == child
      ensures Segments == [Segment(position, angle)] + (if child == null then [] else child.Segments)
      ensures Repr == {this} + (if child == null then {} else child.Repr)
    {
      this.position := position;
      this.angle := angle;
      this.child := child;
      Segments := [Segment(position, angle)] + (if child == null then [] else child.Segments);
      Repr := {this} + (if child == null then {} else child.Repr);
    }

    /** Replaces the whole tail by `c` (the old tail is released). */
    method SetChild(c: Joint?)
      requires Valid()
      requires c != null ==> c.Valid() && this !in c.Repr
      modifies this
      ensures Valid()
      ensures child == c && position == old(position) && angle == old(angle)
      ensures Segments == [Segment(position, angle)] + (if c == null then [] else c.Segments)
      ensures Repr == {this} + (if c == null then {} else c.Repr)
    {
      child := c;
      Segments := [Segment(position, angle)] + (if c == null then [] else c.Segments);
      Repr := {this} + (if c == null then {} else c.Repr);
    }

    /** Leaves exactly `childAmount` joints below this one: drops the tail
        beyond them or appends default joints. */
    method Resize(childAmount: int)
      requires Valid()
      requires childAmount >= 0
      modifies Repr
      ensures Valid()
      ensures fresh(Repr - old(Repr))
      ensures Segments == Resized(old(Segments), childAmount)
      decreases childAmount
    {
      if childAmount == 0 {
        if child != null {
          child := null;
        }
        Repr := {this};
        Segments := [Segment(position, angle)];
        return;
      }
      if child == null {
        child := new Joint(DefaultSegment.position, DefaultSegment.angle, null);
      }
      child.Resize(childAmount - 1);
      Repr := {this} + child.Repr;
      Segments := [Segment(position, angle)] + child.Segments;
    }

    /** One CCD sweep towards `target` (given in the parent's frame);
        returns the new end point in the parent's frame.  `between` stands
        for glm::rotation applied to the normalised end point and target. */
    method RunIK(target: Vec3, between: (Vec3, Vec3) -> Rot) returns (endPoint: Vec3)
      requires Valid()
      modifies Repr
      ensures Valid() && Repr == old(Repr)
      ensures Segments == Sweep(old(Segments), target, between).segs
      ensures endPoint == Sweep(old(Segments), target, between).end
      decreases Repr
    {
      if child == null {
        return position;
      }
      ghost var segs := Segments;
      SweepStep(segs, target, between);
      var localTarget := LocalTarget(Segment(position, angle), target);
      ghost var sub := Sweep(segs[1..], localTarget, between);
      assert segs[1..] == child.Segments;
      var childEnd := child.RunIK(localTarget, between);
      angle := Compose(angle, between(childEnd, localTarget));
      Segments := [Segment(position, angle)] + child.Segments;
      endPoint := Add(position, Apply(angle, childEnd));
    }

    /** Appends the world-space anchor of this joint and of every joint
        below it to `output`, which is otherwise returned unchanged. */
    function GetCoordinates(output: seq<Vec3>, translation: Vec3, rotation: Rot): (r: seq<Vec3>)
      reads this, Repr
      requires Valid()
      ensures r == output + WorldPoints(Segments, translation, rotation)
      decreases Repr
    {
      var world := Add(translation, Apply(rotation, position));
      if child == null then output + [world]
      else child.GetCoordinates(output + [world], world, Compose(rotation, angle))
    }

    /** The chain's tip in the parent's frame, as RunIK would report it
        without rotating anything. */
    function GetEndPoint(): (r: Vec3)
      reads this, Repr
      requires Valid()
      ensures r == EndPoint(Segments)
      decreases Repr
    {
      if child == null then position
      else Add(position, Apply(angle, child.GetEndPoint()))
    }
  }
}
