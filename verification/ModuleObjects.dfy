/**
  Module trees as mutable objects: adapters are installed and stripped by replacing children in place.
 */
module ModuleObjects {
  import opened LoraTrainer
  import opened ModuleTree

  datatype Part = DensePart(layer: Linear)
                | AdaptedPart(adapter: LoRALinear)
                | OtherPart(operation: string)
                | Nested(node: Node)

  datatype Slot = Slot(name: string, part: Part)

  /** The tree a part stands for. */
  ghost function PartTree(p: Part): Module
    reads if p.Nested? then {p.node} else {}
  {
    match p
    case DensePart(l) => Dense(l)
    case AdaptedPart(l) => Adapted(l)
    case OtherPart(operation) => Other(operation)
    case Nested(n) => n.tree
  }

  ghost function Children(slots: seq<Slot>, n: nat): (children: seq<Child>)
    requires n <= |slots|
    reads set k | 0 <= k < n && slots[k].part.Nested? :: slots[k].part.node
    ensures |children| == n && forall k :: 0 <= k < n ==> children[k] == Child(slots[k].name, PartTree(slots[k].part))
  {
    if n == 0 then [] else Children(slots, n - 1) + [Child(slots[n - 1].name, PartTree(slots[n - 1].part))]
  }

  /** A container module: named children, some of them containers of their own. */
  class Node {
    var slots: seq<Slot>
    const wiring: Wiring
    ghost var tree: Module
    ghost const repr: set<Node>

    ghost predicate Valid()
      reads this, repr
      decreases repr, 1
    {
      Footprint() && Shows(tree, |slots|, tree)
    }

    /** The nodes below are valid, and no two children share one. */
    ghost predicate Footprint()
      reads this, repr
      decreases repr, 0
    {
      && this in repr
      && (forall k :: 0 <= k < |slots| && slots[k].part.Nested? ==>
            var n := slots[k].part.node;
            n in repr && n in n.repr && n.repr < repr && this !in n.repr && n.Valid())
      && (forall j, k :: 0 <= j < k < |slots| && slots[j].part.Nested? && slots[k].part.Nested? ==>
            slots[j].part.node.repr !! slots[k].part.node.repr)
    }

    ghost predicate ShowsChild(k: nat, child: Child)
      reads this, repr
      requires k < |slots|
    {
      && (slots[k].part.Nested? ==> slots[k].part.node in repr)
      && child == Child(slots[k].name, PartTree(slots[k].part))
    }

    /** The first `n` children are those of `done`, the others those of `start`. */
    ghost predicate Shows(done: Module, n: nat, start: Module)
      reads this, repr
    {
      && done.Container? && start.Container? && done.wiring == start.wiring == wiring
      && |done.children| == |start.children| == |slots| && n <= |slots|
      && (forall k :: 0 <= k < n ==> ShowsChild(k, done.children[k]))
      && (forall k :: n <= k < |slots| ==> ShowsChild(k, start.children[k]))
    }

    constructor (slots: seq<Slot>, wiring: Wiring)
      requires forall k :: 0 <= k < |slots| && slots[k].part.Nested? ==>
                 slots[k].part.node.Valid() && slots[k].part.node in slots[k].part.node.repr
      requires forall j, k :: 0 <= j < k < |slots| && slots[j].part.Nested? && slots[k].part.Nested? ==>
                 slots[j].part.node.repr !! slots[k].part.node.repr
      ensures Valid() && this.slots == slots
      ensures tree == Container(Children(slots, |slots|), wiring)
    {
      this.slots, this.wiring := slots, wiring;
      repr := {this} + set k, n | 0 <= k < |slots| && slots[k].part.Nested? && n in slots[k].part.node.repr :: n;
      tree := Container(Children(slots, |slots|), wiring);
    }

    /** Replaces a child that is no container. */
    method SetPart(i: nat, part: Part, ghost start: Module, ghost done: Module)
      requires Footprint() && Shows(done, i, start) && i < |slots|
      requires !slots[i].part.Nested? && !part.Nested? && done.children[i] == Child(slots[i].name, PartTree(part))
      modifies this`slots
      ensures Footprint() && Shows(done, i + 1, start) && |slots| == old(|slots|)
    {
      slots := slots[i := slots[i].(part := part)];
    }

    ghost function OtherNodes(i: nat): set<Node>
      reads this
    {
      set k | 0 <= k < |slots| && k != i && slots[k].part.Nested? :: slots[k].part.node
    }

    /** Merges every adapter below this container, in place. */
    method StripLora()
      requires Valid()
      modifies repr
      ensures Valid() && tree == Strip(old(tree))
      decreases repr, 1
    {
      ghost var start, done := tree, Strip(tree);
      for i := 0 to |slots|
        invariant |slots| == |start.children|
        invariant Footprint() && Shows(done, i, start)
      {
        assert done.children[i] == Child(slots[i].name, Stripped(PartTree(slots[i].part)));
        match slots[i].part
        case AdaptedPart(adapter) =>
          SetPart(i, DensePart(Merge(adapter)), start, done);
        case Nested(_) =>
          StripNested(i, start, done);
        case _ =>
          assert Strip(PartTree(slots[i].part)) == PartTree(slots[i].part);
      }
      tree := done;
    }

    method StripNested(i: nat, ghost start: Module, ghost done: Module)
      requires Footprint() && Shows(done, i, start) && i < |slots| && slots[i].part.Nested?
      requires done.children[i] == Child(slots[i].name, Strip(slots[i].part.node.tree))
      modifies repr
      ensures Footprint() && Shows(done, i + 1, start) && |slots| == old(|slots|)
      decreases repr, 0
    {
      var node := slots[i].part.node;
      ghost var others := OtherNodes(i);
      assert forall n :: n in others ==> n in n.repr && n.repr !! node.repr && n.Valid();
      node.StripLora();
      assert forall n :: n in others ==> n.Valid() && n.tree == old(n.tree);
      assert others == OtherNodes(i);
    }

    /** Puts a fresh adapter over every targeted linear layer below this container, in place, and lists them by path. */
    method ApplyLora(path: string, cfg: LoraConfig, initial: Initial) returns (adapted: map<string, LoRALinear>)
      requires Valid() && cfg.rank > 0
      modifies repr
      ensures Valid() && tree == ModuleTree.ApplyLora(old(tree), path, cfg, initial)
      ensures adapted == InstalledBelow(old(tree), path, cfg, initial)
      decreases repr, 3
    {
      ghost var done := ModuleTree.ApplyLora(tree, path, cfg, initial);
      adapted := AdaptSlots(path, cfg, initial, tree, done);
      tree := done;
    }

    method AdaptSlots(path: string, cfg: LoraConfig, initial: Initial, ghost start: Module, ghost done: Module)
      returns (adapted: map<string, LoRALinear>)
      requires Footprint() && Shows(done, 0, start) && cfg.rank > 0
      requires forall k :: 0 <= k < |slots| ==> done.children[k] == AdaptChild(start.children[k], path, cfg, initial)
      modifies repr
      ensures Footprint() && Shows(done, |slots|, start)
      ensures adapted == InstalledBelow(start, path, cfg, initial)
      decreases repr, 2
    {
      adapted := map[];
      for i := 0 to |slots|
        invariant Footprint() && Shows(done, i, start)
        invariant adapted == InstalledFirst(start, path, cfg, initial, i)
      {
        var added := AdaptPart(i, path, cfg, initial, start, done);
        adapted := adapted + added;
      }
    }

    method AdaptPart(i: nat, path: string, cfg: LoraConfig, initial: Initial, ghost start: Module, ghost done: Module)
      returns (added: map<string, LoRALinear>)
      requires Footprint() && Shows(done, i, start) && i < |slots| && cfg.rank > 0
      requires done.children[i] == AdaptChild(start.children[i], path, cfg, initial)
      modifies repr
      ensures Footprint() && Shows(done, i + 1, start) && |slots| == old(|slots|)
      ensures added == InstalledAt(start.children[i], path, cfg, initial)
      decreases repr, 1
    {
      assert ShowsChild(i, start.children[i]);
      var name, part, full := slots[i].name, slots[i].part, Join(path, slots[i].name);
      assert done.children[i] == Child(name, Adapt(PartTree(part), name, full, cfg, initial));
      assert InstalledAt(start.children[i], path, cfg, initial) == Installed(PartTree(part), name, full, cfg, initial);
      if part.DensePart? && name in cfg.targets {
        var a := InitialA(initial, full, cfg.rank, part.layer.inputs);
        var lora := Fresh(part.layer, a, cfg.alpha, cfg.hasDropout);
        SetPart(i, AdaptedPart(lora), start, done);
        added := map[full := lora];
      } else if part.Nested? {
        added := AdaptNested(i, full, cfg, initial, start, done);
      } else {
        added := map[];
      }
    }

    method AdaptNested(i: nat, path: string, cfg: LoraConfig, initial: Initial, ghost start: Module, ghost done: Module)
      returns (adapted: map<string, LoRALinear>)
      requires Footprint() && Shows(done, i, start) && i < |slots| && slots[i].part.Nested? && cfg.rank > 0
      requires done.children[i]
               == Child(slots[i].name, ModuleTree.ApplyLora(slots[i].part.node.tree, path, cfg, initial))
      modifies repr
      ensures Footprint() && Shows(done, i + 1, start) && |slots| == old(|slots|)
      ensures adapted == InstalledBelow(old(slots[i].part.node.tree), path, cfg, initial)
      decreases repr, 0
    {
      var node := slots[i].part.node;
      ghost var others := OtherNodes(i);
      assert forall n :: n in others ==> n in n.repr && n.repr !! node.repr && n.Valid();
      adapted := node.ApplyLora(path, cfg, initial);
      assert forall n :: n in others ==> n.Valid() && n.tree == old(n.tree);
      assert others == OtherNodes(i);
    }
  }
}
