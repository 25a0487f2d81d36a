/**
 * Projectiles, and the step that advances a whole queue of them against the
 * opposing hero (src/lib/board.ts, lines 20-52 and 228-262).
 */
module Projectiles {
  import opened Collision

  /** The outcome of one projectile step. */
  datatype ProjectileResult = None | Hit | Miss

  /** A projectile only ever changes its `x`. */
  datatype Projectile = Projectile(x: int, y: int, velocity: int, radius: int)

  /** The circle a projectile is tested against: the opposing hero. */
  datatype Target = Target(x: int, y: int, radius: int)

  /** The outcome of a step, and the projectile as it is afterwards. */
  datatype Step = Step(outcome: ProjectileResult, next: Projectile)

  /** True iff a projectile centred at `x` touches or crosses either side wall. */
  predicate ReachesWall(x: int, radius: int, width: int)
  {
    x + radius >= width || x - radius <= 0
  }

  /** Projectile.tick: hit test first, then the wall test on the next position, then the move. */
  function Advance(p: Projectile, t: Target, width: int): (s: Step)
    ensures s.outcome == Hit <==> DetectCollision(p.x, p.y, t.x, t.y, p.radius, t.radius)
    ensures s.outcome == Miss <==>
      !DetectCollision(p.x, p.y, t.x, t.y, p.radius, t.radius) && ReachesWall(p.x + p.velocity, p.radius, width)
    ensures s.outcome == None ==>
      s.next.x == p.x + p.velocity && 0 < s.next.x - s.next.radius && s.next.x + s.next.radius < width
    ensures s.outcome != None ==> s.next.x == p.x
    ensures s.next.y == p.y && s.next.velocity == p.velocity && s.next.radius == p.radius
  {
    var maybe := p.x + p.velocity;
    if DetectCollision(p.x, p.y, t.x, t.y, p.radius, t.radius) then
      Step(Hit, p)
    else if maybe + p.radius >= width || maybe - p.radius <= 0 then
      Step(Miss, p)
    else
      Step(None, p.(x := maybe))
  }

  /** The queue after one tick against a target, and how many of its projectiles hit. */
  datatype Resolution = Resolution(survivors: seq<Projectile>, hits: nat)

  /**
   * The source's `filter`: keep the projectiles whose outcome is None, moved,
   * and count the Hits. The shooter is credited with the count.
   */
  function Resolve(q: seq<Projectile>, t: Target, width: int): (r: Resolution)
    ensures |r.survivors| + r.hits <= |q|
    ensures forall s <- r.survivors :: 0 < s.x - s.radius && s.x + s.radius < width
    decreases |q|
  {
    if q == [] then Resolution([], 0)
    else
      var step := Advance(q[0], t, width);
      var rest := Resolve(q[1..], t, width);
      match step.outcome
      case None => Resolution([step.next] + rest.survivors, rest.hits)
      case Hit => Resolution(rest.survivors, rest.hits + 1)
      case Miss => rest
  }

  /** The first phase of the filter: every projectile's outcome, in queue order. */
  function Outcomes(q: seq<Projectile>, t: Target, width: int): (outs: seq<ProjectileResult>)
    ensures |outs| == |q|
    ensures forall j :: 0 <= j < |q| ==> outs[j] == Advance(q[j], t, width).outcome
  {
    seq(|q|, j requires 0 <= j < |q| => Advance(q[j], t, width).outcome)
  }

  /** Indices `j >= i` of `outs` that hold outcome `o`, in increasing order. */
  function Where(outs: seq<ProjectileResult>, o: ProjectileResult, i: nat): (js: seq<nat>)
    requires i <= |outs|
    ensures forall k :: 0 <= k < |js| ==> i <= js[k] < |outs|
    decreases |outs| - i
  {
    if i == |outs| then []
    else (if outs[i] == o then [i] else []) + Where(outs, o, i + 1)
  }

  /** Every index `Where` lists holds outcome `o`. */
  lemma {:induction false} WhereSound(outs: seq<ProjectileResult>, o: ProjectileResult, i: nat)
    requires i <= |outs|
    ensures forall k :: 0 <= k < |Where(outs, o, i)| ==> outs[Where(outs, o, i)[k]] == o
    decreases |outs| - i
  {
    if i < |outs| {
      WhereSound(outs, o, i + 1);
      var rest := Where(outs, o, i + 1);
      var head: seq<nat> := if outs[i] == o then [i] else [];
      var js := Where(outs, o, i);
      assert js == head + rest;
      forall k | 0 <= k < |js| ensures outs[js[k]] == o {
        if k < |head| { assert js[k] == head[k] == i; } else { assert js[k] == rest[k - |head|]; }
      }
    }
  }

  /** `Where` lists its indices in strictly increasing order, hence each at most once. */
  lemma {:induction false} WhereIncreasing(outs: seq<ProjectileResult>, o: ProjectileResult, i: nat)
    requires i <= |outs|
    ensures forall k, l :: 0 <= k < l < |Where(outs, o, i)| ==> Where(outs, o, i)[k] < Where(outs, o, i)[l]
    decreases |outs| - i
  {
    if i < |outs| {
      WhereIncreasing(outs, o, i + 1);
      var rest := Where(outs, o, i + 1);
      var head: seq<nat> := if outs[i] == o then [i] else [];
      var js := Where(outs, o, i);
      assert js == head + rest;
      forall k, l | 0 <= k < l < |js| ensures js[k] < js[l] {
        assert js[l] == rest[l - |head|];
        if k < |head| { assert js[k] == head[k] == i; } else { assert js[k] == rest[k - |head|]; }
      }
    }
  }

  /** Every index from `i` on that holds outcome `o` is listed by `Where`. */
  lemma {:induction false} WhereComplete(outs: seq<ProjectileResult>, o: ProjectileResult, i: nat)
    requires i <= |outs|
    ensures forall j :: i <= j < |outs| && outs[j] == o ==> j in Where(outs, o, i)
    decreases |outs| - i
  {
    if i < |outs| {
      WhereComplete(outs, o, i + 1);
      var head: seq<nat> := if outs[i] == o then [i] else [];
      assert Where(outs, o, i) == head + Where(outs, o, i + 1);
    }
  }

  /** Every index holds exactly one outcome: the three index lists partition the queue. */
  lemma {:induction false} OutcomesPartition(outs: seq<ProjectileResult>, i: nat)
    requires i <= |outs|
    ensures |Where(outs, None, i)| + |Where(outs, Hit, i)| + |Where(outs, Miss, i)| == |outs| - i
    decreases |outs| - i
  {
    if i < |outs| {
      OutcomesPartition(outs, i + 1);
    }
  }

  /**
   * Resolve on the suffix from `i`: the survivors are the moved None-outcome
   * projectiles in their original order, and the hit count is the number of Hits.
   */
  lemma {:induction false} ResolveFrom(q: seq<Projectile>, t: Target, width: int, i: nat)
    requires i <= |q|
    ensures |Resolve(q[i..], t, width).survivors| == |Where(Outcomes(q, t, width), None, i)|
    ensures forall k :: 0 <= k < |Where(Outcomes(q, t, width), None, i)| ==>
      Resolve(q[i..], t, width).survivors[k] == Advance(q[Where(Outcomes(q, t, width), None, i)[k]], t, width).next
    ensures Resolve(q[i..], t, width).hits == |Where(Outcomes(q, t, width), Hit, i)|
    decreases |q| - i
  {
    if i < |q| {
      ResolveFrom(q, t, width, i + 1);
      assert q[i..][0] == q[i];
      assert q[i..][1..] == q[i + 1..];
      var outs := Outcomes(q, t, width);
      var step := Advance(q[i], t, width);
      var r := Resolve(q[i..], t, width);
      var rest := Resolve(q[i + 1..], t, width);
      var live := Where(outs, None, i);
      var liveRest := Where(outs, None, i + 1);
      if step.outcome == None {
        assert r.survivors == [step.next] + rest.survivors;
        assert live == [i] + liveRest;
        forall k | 0 <= k < |live| ensures r.survivors[k] == Advance(q[live[k]], t, width).next {
          if k > 0 { assert r.survivors[k] == rest.survivors[k - 1]; }
        }
      } else {
        assert r.survivors == rest.survivors;
        assert live == liveRest;
      }
    }
  }

  /**
   * The filter keeps exactly the None-outcome projectiles, moved by their velocity,
   * in their original order, and counts exactly the Hits; the rest were Misses.
   * `live` lists, in increasing order, exactly the indices whose outcome is None.
   */
  lemma ResolveExactly(q: seq<Projectile>, t: Target, width: int)
    ensures var r := Resolve(q, t, width);
      var outs := Outcomes(q, t, width);
      var live := Where(outs, None, 0);
      (forall k :: 0 <= k < |live| ==> Advance(q[live[k]], t, width).outcome == None) &&
      (forall k, l :: 0 <= k < l < |live| ==> live[k] < live[l]) &&
      (forall j :: 0 <= j < |q| && Advance(q[j], t, width).outcome == None ==> j in live) &&
      |r.survivors| == |live| &&
      (forall k :: 0 <= k < |live| ==> r.survivors[k] == Advance(q[live[k]], t, width).next) &&
      r.hits == |Where(outs, Hit, 0)| &&
      |q| == |r.survivors| + r.hits + |Where(outs, Miss, 0)|
  {
    assert q[0..] == q;
    var outs := Outcomes(q, t, width);
    ResolveFrom(q, t, width, 0);
    WhereSound(outs, None, 0);
    WhereIncreasing(outs, None, 0);
    WhereComplete(outs, None, 0);
    OutcomesPartition(outs, 0);
  }

  /** The Hits counted are exactly the projectiles whose own circle overlaps the target. */
  lemma HitsAreCollisions(q: seq<Projectile>, t: Target, width: int)
    ensures var hits := Where(Outcomes(q, t, width), Hit, 0);
      (forall k :: 0 <= k < |hits| ==> DetectCollision(q[hits[k]].x, q[hits[k]].y, t.x, t.y, q[hits[k]].radius, t.radius)) &&
      (forall j :: 0 <= j < |q| && DetectCollision(q[j].x, q[j].y, t.x, t.y, q[j].radius, t.radius) ==> j in hits) &&
      Resolve(q, t, width).hits == |hits|
  {
    var outs := Outcomes(q, t, width);
    assert q[0..] == q;
    ResolveFrom(q, t, width, 0);
    WhereSound(outs, Hit, 0);
    WhereComplete(outs, Hit, 0);
  }

  /** True iff every projectile was fired with this velocity and the standard radius. */
  predicate AllFiredWith(q: seq<Projectile>, velocity: int, radius: int)
  {
    forall p <- q :: p.velocity == velocity && p.radius == radius
  }

  /** The filter keeps the velocity and radius of every survivor. */
  lemma {:induction false} ResolveKeepsFired(q: seq<Projectile>, t: Target, width: int, velocity: int, radius: int)
    requires AllFiredWith(q, velocity, radius)
    ensures AllFiredWith(Resolve(q, t, width).survivors, velocity, radius)
    decreases |q|
  {
    if q != [] {
      assert q[0] in q;
      assert AllFiredWith(q[1..], velocity, radius) by {
        forall p <- q[1..] ensures p.velocity == velocity && p.radius == radius {
          assert p in q;
        }
      }
      ResolveKeepsFired(q[1..], t, width, velocity, radius);
    }
  }

  /** A projectile 2 pixels from the left wall, flying left, misses on its next step. */
  lemma BoundaryMiss()
    ensures Advance(Projectile(2, 50, -5, 5), Target(90, 50, 5), 100).outcome == Miss
  {
  }
}
