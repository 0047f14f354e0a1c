/** Actors and the base Component. A component registers itself with its owner
    when it is constructed and deregisters when it is destroyed; the base
    Update does nothing. */
module Actors {
  import opened VectorOps

  /** The key the owner's component list is ordered by. */
  function UpdateOrderOf(c: Component): int
  {
    c.updateOrder
  }

  /** The owner side of a component's registration: the actor's list of
      components, kept in non-decreasing update order. */
  class Actor {
    var components: seq<Component>

    constructor()
      ensures components == []
    {
      components := [];
    }

    /** Insert c in front of the first component with a greater update order. */
    method AddComponent(c: Component)
      modifies this`components
      ensures components == InsertSorted(old(components), UpdateOrderOf, c)
    {
      var p := 0;
      while p < |components| && components[p].updateOrder <= c.updateOrder
        invariant p <= InsertPos(components, UpdateOrderOf, c.updateOrder)
      {
        p := p + 1;
      }
      components := components[..p] + [c] + components[p..];
    }

    /** Find c and erase it; nothing happens when it is not in the list. */
    method RemoveComponent(c: Component)
      modifies this`components
      ensures components == if c in old(components) then RemoveFirst(old(components), c) else old(components)
    {
      var i := Find(components, c);
      if i < |components| {
        components := components[..i] + components[i + 1..];
      }
    }
  }

  class Component {
    const owner: Actor
    const updateOrder: int

    /** Component::Component: stores the owner and the update order, then adds
        the new component to the owner's list. */
    constructor(owner: Actor, updateOrder: int)
      modifies owner`components
      ensures this.owner == owner && this.updateOrder == updateOrder
      ensures owner.components == InsertSorted(old(owner.components), UpdateOrderOf, this)
    {
      this.owner := owner;
      this.updateOrder := updateOrder;
      new;
      owner.AddComponent(this);
    }

    /** Component::~Component: removes the component from its owner's list. */
    method Destroy()
      modifies owner`components
      ensures owner.components == if this in old(owner.components) then RemoveFirst(old(owner.components), this) else old(owner.components)
    {
      owner.RemoveComponent(this);
    }

    /** Component::Update: the base behaviour changes nothing; the method
        has no modifies clause, so it can change no existing object. */
    method Update(deltaTime: real)
    {
    }
  }

  /** Constructing a component and destroying it again leaves the owner's
      component list as it was. */
  method ConstructThenDestroy(owner: Actor, updateOrder: int)
    modifies owner`components
    ensures owner.components == old(owner.components)
  {
    ghost var before := owner.components;
    var c := new Component(owner, updateOrder);
    assert c !in before;
    InsertThenRemove(before, UpdateOrderOf, c);
    c.Destroy();
  }
}
