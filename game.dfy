/** The game's actor lifecycle (Chapters 6 and 7): the live and pending actor
    lists, the updating flag that routes newly created actors, frame pacing,
    splicing pending actors in, reaping dead ones, unloading, and the
    Chapter 7 sphere that bounces between two heights. Deleting an actor is
    modelled as the one thing the engine relies on its destructor doing:
    calling RemoveActor. */
module GameLoop {
  import opened VectorOps
  import opened FrameTiming
  import opened Actors
  import opened Rendering

  /** The sphere actor's height and mDirection (true: moving down). */
  datatype Sphere = Sphere(y: int, down: bool)

  /** The sphere moves while its height is within these limits. */
  const LowLimit: int := -1000
  const HighLimit: int := 1000
  /** Distance moved per frame. */
  const Stride: int := 5
  /** The height LoadData gives the sphere. */
  const SphereStartY: int := -75

  /** One frame of the Chapter 7 bounce: keep moving while the limit in the
      current direction has not been passed, otherwise turn around in place. */
  function BounceStep(s: Sphere): Sphere
  {
    if s.down && s.y >= LowLimit then Sphere(s.y - Stride, true)
    else if !s.down && s.y <= HighLimit then Sphere(s.y + Stride, false)
    else Sphere(s.y, !s.down)
  }

  /** Each frame the sphere either moves exactly one stride in its current
      direction, or keeps its height and turns; it turns exactly when it has
      gone past the limit it is heading for. */
  lemma BounceMovesOrTurns(s: Sphere)
    ensures BounceStep(s).down == s.down <==> (if s.down then s.y >= LowLimit else s.y <= HighLimit)
    ensures BounceStep(s).down == s.down ==> BounceStep(s).y == s.y + (if s.down then -Stride else Stride)
    ensures BounceStep(s).down != s.down ==> BounceStep(s).y == s.y
  {
  }

  /** A turn is always followed by a move: the sphere never turns twice in a row. */
  lemma NoDoubleTurn(s: Sphere)
    requires BounceStep(s).down != s.down
    ensures BounceStep(BounceStep(s)).down == BounceStep(s).down
    ensures BounceStep(BounceStep(s)).y != s.y
  {
  }

  /** The band the sphere never leaves: one stride beyond each limit. */
  predicate InBand(s: Sphere)
  {
    LowLimit - Stride <= s.y <= HighLimit + Stride
  }

  lemma BounceStaysInBand(s: Sphere)
    requires InBand(s)
    ensures InBand(BounceStep(s))
  {
  }

  /** The sphere after n frames. */
  function Bounces(s: Sphere, n: nat): Sphere
    decreases n
  {
    if n == 0 then s else Bounces(BounceStep(s), n - 1)
  }

  /** A sphere that starts within the band stays in it for every number of frames. */
  lemma {:induction false} BouncesStayInBand(s: Sphere, n: nat)
    requires InBand(s)
    ensures InBand(Bounces(s, n))
    decreases n
  {
    if n > 0 {
      BounceStaysInBand(s);
      BouncesStayInBand(BounceStep(s), n - 1);
    }
  }

  /** Whatever the uninitialised direction, the sphere placed at its start
      height stays within [-1005, 1005] forever. */
  lemma SphereStaysInBand(down: bool, n: nat)
    ensures LowLimit - Stride <= Bounces(Sphere(SphereStartY, down), n).y <= HighLimit + Stride
  {
    BouncesStayInBand(Sphere(SphereStartY, down), n);
  }

  /** Swap-and-pop removal takes nothing that was not there. */
  lemma SwapRemoveWithin<T>(s: seq<T>, x: T)
    ensures forall y :: y in SwapRemove(s, x) ==> y in s
  {
    SwapRemoveSpec(s, x);
    forall y | y in SwapRemove(s, x) ensures y in s {
      assert y in multiset(SwapRemove(s, x));
    }
  }

  /** Adding an actor nobody holds and then removing it gives back the list. */
  lemma SwapRemoveAppended<T>(s: seq<T>, x: T)
    requires x !in s
    ensures SwapRemove(s + [x], x) == s
  {
    var t := s + [x];
    assert IndexOf(t, x) == |s| by {
      forall j | 0 <= j < |s| ensures t[j] != x {
        assert t[j] == s[j];
      }
    }
    assert SwapPop(t, |s|) == s;
  }

  /** A list with the same elements, counted, as a list without repeats has
      none either. */
  lemma DistinctByMultiset<T>(a: seq<T>, b: seq<T>)
    requires multiset(a) == multiset(b) && Distinct(a)
    ensures Distinct(b)
  {
    forall i, j | 0 <= i < j < |b| ensures b[i] != b[j] {
      if b[i] == b[j] {
        var x := b[i];
        assert b == b[..j] + [x] + b[j + 1..];
        assert x in b[..j];
        assert multiset(b)[x] >= 2 by {
          calc {
            multiset(b)[x];
            multiset(b[..j])[x] + multiset([x])[x] + multiset(b[j + 1..])[x];
          >=
            multiset(b[..j])[x] + 1;
          }
        }
        DistinctCount(a, IndexOf(a, x));
        assert false;
      }
    }
  }

  /** Two lists without repeats and without a shared element, joined, have no repeats. */
  lemma DistinctJoin<T>(a: seq<T>, b: seq<T>)
    requires Distinct(a) && Distinct(b) && Disjoint(a, b)
    ensures Distinct(a + b)
  {
    var ab := a + b;
    forall i, j | 0 <= i < j < |ab| ensures ab[i] != ab[j] {
      if j < |a| {
        assert ab[i] == a[i] && ab[j] == a[j];
      } else if i < |a| {
        assert ab[i] == a[i] && ab[j] == b[j - |a|];
      } else {
        assert ab[i] == b[i - |a|] && ab[j] == b[j - |a|];
      }
    }
  }

  /** Removing an actor from two lists that hold no actor twice and share
      none keeps them so, and leaves the actor in neither. */
  lemma RemoveKeepsApart<T>(a: seq<T>, p: seq<T>, x: T)
    requires Distinct(a) && Distinct(p) && Disjoint(a, p)
    ensures Distinct(SwapRemove(a, x)) && Distinct(SwapRemove(p, x))
    ensures Disjoint(SwapRemove(a, x), SwapRemove(p, x))
    ensures x !in SwapRemove(a, x) && x !in SwapRemove(p, x)
  {
    SwapRemoveSpec(a, x);
    SwapRemoveSpec(p, x);
    SwapRemoveWithin(a, x);
    SwapRemoveWithin(p, x);
    var a', p' := SwapRemove(a, x), SwapRemove(p, x);
    forall i, j | 0 <= i < |a'| && 0 <= j < |p'| ensures a'[i] != p'[j] {
      assert a'[i] in a && p'[j] in p;
    }
  }

  /** Taking one more element away from a difference of counts. */
  lemma DiffStep<T>(rest: multiset<T>, all: multiset<T>, done: multiset<T>, x: T)
    requires rest == all - done
    ensures rest - multiset{x} == all - (done + multiset{x})
  {
  }

  /** Counting one more element of a prefix. */
  lemma PrefixCount<T>(s: seq<T>, k: nat)
    requires k < |s|
    ensures multiset(s[..k + 1]) == multiset(s[..k]) + multiset{s[k]}
  {
    assert s[..k + 1] == s[..k] + [s[k]];
  }

  class Game {
    var actors: seq<Actor>
    var pending: seq<Actor>
    var updatingActors: bool
    var ticksCount: Ticks
    var sphereY: int
    var direction: bool
    const renderer: Renderer?

    /** No actor is listed twice, and none is both live and pending. */
    predicate Valid()
      reads this
    {
      Distinct(actors) && Distinct(pending) && Disjoint(actors, pending)
    }

    /** Game::Game followed by the bookkeeping of Initialize, before LoadData
        lays out the level (the layout is not modelled): no actors yet, not
        updating, the renderer Initialize created (or none), the sphere's start
        height and mTicksCount read from the clock. The constructor leaves
        mDirection uninitialised, so its value is a parameter. */
    constructor(renderer: Renderer?, direction: bool, now: Ticks)
      ensures actors == [] && pending == [] && !updatingActors
      ensures this.renderer == renderer && this.direction == direction
      ensures sphereY == SphereStartY && ticksCount == now
      ensures Valid()
    {
      actors, pending := [], [];
      updatingActors := false;
      this.renderer := renderer;
      this.direction := direction;
      sphereY := SphereStartY;
      ticksCount := now;
    }

    /** Game::AddActor: while the actors are being ticked a new actor waits
        in the pending list; otherwise it joins the live list. */
    method AddActor(actor: Actor)
      modifies this`actors, this`pending
      ensures updatingActors ==> pending == old(pending) + [actor] && actors == old(actors)
      ensures !updatingActors ==> actors == old(actors) + [actor] && pending == old(pending)
      ensures old(Valid()) && actor !in old(actors) && actor !in old(pending) ==> Valid()
    {
      if updatingActors {
        pending := pending + [actor];
      } else {
        actors := actors + [actor];
      }
    }

    /** Game::RemoveActor: find the actor in each list and, where found, swap
        it with the last element and pop the back. */
    method RemoveActor(actor: Actor)
      modifies this`actors, this`pending
      ensures pending == SwapRemove(old(pending), actor)
      ensures actors == SwapRemove(old(actors), actor)
      ensures old(Valid()) ==> Valid() && actor !in actors && actor !in pending
    {
      ghost var wasValid, a0, p0 := Valid(), actors, pending;
      pending := SwapAndPop(pending, actor);
      actors := SwapAndPop(actors, actor);
      if wasValid {
        RemoveKeepsApart(a0, p0, actor);
      }
    }

    /** std::find, then std::iter_swap with the back and pop_back when found. */
    static method SwapAndPop(s: seq<Actor>, actor: Actor) returns (r: seq<Actor>)
      ensures r == SwapRemove(s, actor)
    {
      var i := Find(s, actor);
      r := s;
      if i < |r| {
        var last := |r| - 1;
        r := r[i := r[last]][last := r[i]];
        r := r[..last];
        assert i == IndexOf(s, actor);
      }
    }

    /** The pacing at the top of UpdateGame: wait until a reading passes
        mTicksCount + 16, take the next reading for the clamped delta and the
        one after for the new mTicksCount. */
    method PaceFrame(clock: seq<Ticks>) returns (deltaMs: nat)
      requires Reaches(clock, Plus(ticksCount, FrameMs))
      modifies this`ticksCount
      ensures Frame(deltaMs, ticksCount) == FramePacing(old(ticksCount), clock)
    {
      var target := Plus(ticksCount, FrameMs);
      var i := 0;
      while !TicksPassed(clock[i], target)
        invariant i <= FirstPass(clock, target)
        decreases FirstPass(clock, target) - i
      {
        i := i + 1;
      }
      deltaMs := ClampDelta(Minus(clock[i + 1], ticksCount));
      ticksCount := clock[i + 2];
    }

    /** The actor pass with mUpdatingActors set. What each actor's Update does
        is outside the model except for the actors it creates, whose
        constructors call AddActor: `spawned` lists them in order, and each
        goes to the pending list, so the live list is not changed while it is
        being iterated. */
    method TickActors(spawned: seq<Actor>)
      requires updatingActors
      modifies this`actors, this`pending
      ensures pending == old(pending) + spawned && actors == old(actors)
    {
      for k := 0 to |spawned|
        invariant pending == old(pending) + spawned[..k] && actors == old(actors)
      {
        AddActor(spawned[k]);
        assert spawned[..k + 1] == spawned[..k] + [spawned[k]];
      }
      assert spawned[..|spawned|] == spawned;
    }

    /** Move every pending actor to the back of the live list, in pending
        order, and clear the pending list. */
    method SplicePending()
      modifies this`actors, this`pending
      ensures actors == old(actors) + old(pending) && pending == []
    {
      for k := 0 to |pending|
        invariant pending == old(pending) && actors == old(actors) + pending[..k]
      {
        actors := actors + [pending[k]];
        assert pending[..k + 1] == pending[..k] + [pending[k]];
      }
      assert pending[..|pending|] == pending;
      pending := [];
    }

    /** The deadActors scan: the dead live actors, in list order. Nothing is
        deleted while the live list is being scanned. */
    method CollectDead(isDead: Actor -> bool) returns (dead: seq<Actor>)
      ensures dead == Select(actors, isDead, true)
    {
      dead := [];
      for k := 0 to |actors|
        invariant dead == Select(actors[..k], isDead, true)
      {
        SelectSnoc(actors[..k], actors[k], isDead, true);
        assert actors[..k + 1] == actors[..k] + [actors[k]];
        if isDead(actors[k]) {
          dead := dead + [actors[k]];
        }
      }
      assert actors[..|actors|] == actors;
    }

    /** Delete one actor: its destructor's RemoveActor call takes one
        occurrence out of each list that holds it. */
    method Delete(x: Actor)
      modifies this`actors, this`pending
      ensures multiset(actors) == multiset(old(actors)) - multiset{x}
      ensures multiset(pending) == multiset(old(pending)) - multiset{x}
      ensures x in old(actors) ==> |actors| == |old(actors)| - 1
    {
      ghost var a0, p0 := actors, pending;
      RemoveActor(x);
      SwapRemoveSpec(a0, x);
      SwapRemoveSpec(p0, x);
    }

    /** Delete each actor of `dead` in turn. */
    method DeleteActors(dead: seq<Actor>)
      modifies this`actors, this`pending
      ensures multiset(actors) == multiset(old(actors)) - multiset(dead)
      ensures multiset(pending) == multiset(old(pending)) - multiset(dead)
    {
      ghost var all, allPending := multiset(actors), multiset(pending);
      for k := 0 to |dead|
        invariant multiset(actors) == all - multiset(dead[..k])
        invariant multiset(pending) == allPending - multiset(dead[..k])
      {
        ghost var a0, p0, done := multiset(actors), multiset(pending), multiset(dead[..k]);
        Delete(dead[k]);
        PrefixCount(dead, k);
        DiffStep(a0, all, done, dead[k]);
        DiffStep(p0, allPending, done, dead[k]);
      }
      assert dead[..|dead|] == dead;
    }

    /** Collect the dead live actors, then delete them: exactly the live
        actors that are not dead remain, each as often as before. */
    method ReapDead(isDead: Actor -> bool)
      modifies this`actors, this`pending
      ensures multiset(actors) == multiset(Select(old(actors), isDead, false))
      ensures multiset(pending) == multiset(old(pending)) - multiset(Select(old(actors), isDead, true))
    {
      var dead := CollectDead(isDead);
      DeleteActors(dead);
      SelectSplit(old(actors), isDead);
    }

    /** Chapter 6 Game::UpdateGame without the per-actor behaviour: pacing,
        the flagged actor pass, the splice, and the reaping of the actors
        whose state is EDead afterwards (`isDead`). */
    method UpdateGame(clock: seq<Ticks>, spawned: seq<Actor>, isDead: Actor -> bool) returns (deltaMs: nat)
      requires Reaches(clock, Plus(ticksCount, FrameMs))
      modifies this`ticksCount, this`updatingActors, this`actors, this`pending
      ensures Frame(deltaMs, ticksCount) == FramePacing(old(ticksCount), clock)
      ensures !updatingActors && pending == []
      ensures multiset(actors) == multiset(Select(old(actors) + old(pending) + spawned, isDead, false))
      ensures old(Valid()) && Distinct(spawned) && Disjoint(old(actors) + old(pending), spawned) ==> Valid()
    {
      if Valid() && Distinct(spawned) && Disjoint(actors + pending, spawned) {
        DistinctJoin(actors, pending);
        DistinctJoin(actors + pending, spawned);
      }
      deltaMs := PaceFrame(clock);
      updatingActors := true;
      TickActors(spawned);
      updatingActors := false;
      Settle(isDead);
      assert old(actors) + (old(pending) + spawned) == old(actors) + old(pending) + spawned;
    }

    /** Chapter 7 Game::UpdateGame: as in Chapter 6, with the sphere moved by
        one bounce step after the flag is set and before the actor pass. */
    method UpdateGameWithSphere(clock: seq<Ticks>, spawned: seq<Actor>, isDead: Actor -> bool) returns (deltaMs: nat)
      requires Reaches(clock, Plus(ticksCount, FrameMs))
      modifies this`ticksCount, this`updatingActors, this`actors, this`pending
      modifies this`sphereY, this`direction
      ensures Frame(deltaMs, ticksCount) == FramePacing(old(ticksCount), clock)
      ensures Sphere(sphereY, direction) == BounceStep(Sphere(old(sphereY), old(direction)))
      ensures !updatingActors && pending == []
      ensures multiset(actors) == multiset(Select(old(actors) + old(pending) + spawned, isDead, false))
      ensures old(Valid()) && Distinct(spawned) && Disjoint(old(actors) + old(pending), spawned) ==> Valid()
    {
      if Valid() && Distinct(spawned) && Disjoint(actors + pending, spawned) {
        DistinctJoin(actors, pending);
        DistinctJoin(actors + pending, spawned);
      }
      deltaMs := PaceFrame(clock);
      updatingActors := true;
      MoveSphere();
      TickActors(spawned);
      updatingActors := false;
      Settle(isDead);
      assert old(actors) + (old(pending) + spawned) == old(actors) + old(pending) + spawned;
    }

    /** The Chapter 7 sphere step on pSphereActor's height and mDirection. */
    method MoveSphere()
      modifies this`sphereY, this`direction
      ensures Sphere(sphereY, direction) == BounceStep(Sphere(old(sphereY), old(direction)))
    {
      var y := sphereY;
      if direction && y >= LowLimit {
        y := y - Stride;
      } else if !direction && y <= HighLimit {
        y := y + Stride;
      } else {
        direction := !direction;
      }
      sphereY := y;
    }

    /** The end of UpdateGame after the flag is cleared: splice the pending
        actors in, then reap the dead. */
    method Settle(isDead: Actor -> bool)
      modifies this`actors, this`pending
      ensures pending == []
      ensures multiset(actors) == multiset(Select(old(actors) + old(pending), isDead, false))
      ensures Distinct(old(actors) + old(pending)) ==> Distinct(actors)
    {
      SplicePending();
      ghost var all := actors;
      ReapDead(isDead);
      assert |pending| == |multiset(pending)| == 0;
      if Distinct(all) {
        SelectDistinct(all, isDead, false);
        DistinctByMultiset(Select(all, isDead, false), actors);
      }
    }

    /** Game::UnloadData: delete the back actor until none is left (each
        deletion calls RemoveActor), then unload the renderer's data. */
    method UnloadData()
      modifies this`actors, this`pending
      modifies (if renderer == null then {} else {renderer})`textures
      modifies (if renderer == null then {} else {renderer})`meshes
      modifies (if renderer == null then {} else {renderer})`shaders
      ensures actors == []
      ensures multiset(pending) == multiset(old(pending)) - multiset(old(actors))
      ensures renderer != null ==> renderer.textures == map[] && renderer.meshes == map[] && renderer.shaders == map[]
    {
      ghost var gone: multiset<Actor> := multiset{};
      ghost var all, allPending := multiset(actors), multiset(pending);
      while actors != []
        invariant all == multiset(actors) + gone
        invariant multiset(pending) == allPending - gone
        decreases |actors|
      {
        ghost var a0, p0 := multiset(actors), multiset(pending);
        var back := actors[|actors| - 1];
        Delete(back);
        assert all == multiset(actors) + (gone + multiset{back}) by {
          assert back in a0;
        }
        DiffStep(p0, allPending, gone, back);
        gone := gone + multiset{back};
      }
      if renderer != null {
        renderer.UnloadData();
      }
    }
  }

  /** An actor created outside the actor pass and deleted again leaves the
      game's lists as they were. */
  method CreateThenDelete(game: Game, actor: Actor)
    requires !game.updatingActors
    requires actor !in game.actors && actor !in game.pending
    modifies game`actors, game`pending
    ensures game.actors == old(game.actors) && game.pending == old(game.pending)
  {
    game.AddActor(actor);
    SwapRemoveAppended(old(game.actors), actor);
    game.RemoveActor(actor);
  }
}
