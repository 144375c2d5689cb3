/**
  Trees of named modules, what they compute, and installing and stripping adapters throughout a tree.

  A container's forward pass is an expression over its input that calls children by name; every operation
  other than a linear layer is an uninterpreted function. Nothing a pass computes is defined when a shape
  does not fit, a child is missing or an operation fails.
 */
module ModuleTree {
  import opened Basics
  import opened LowRank
  import opened LoraTrainer

  type Tensor = seq<Vector>

  datatype Wiring = Input
                  | Call(child: string, argument: Wiring)
                  | Combine(operation: string, left: Wiring, right: Wiring)

  datatype Module = Dense(layer: Linear)
                  | Adapted(adapter: LoRALinear)
                  | Other(operation: string)
                  | Container(children: seq<Child>, wiring: Wiring)

  datatype Child = Child(name: string, module_: Module)

  /** The operations a model is built from besides linear layers. */
  type Operations = (string, Tensor, Tensor) -> Option<Tensor>

  /** What dropout makes of the vector at a position; it keeps the length. */
  type Dropout = d: (LoRALinear, nat, Vector) -> Vector
    | forall l, k, x :: |d(l, k, x)| == |x|
    ghost witness (l, k, x) => x

  ghost predicate Inactive(drop: Dropout) {
    forall l, k, x :: drop(l, k, x) == x
  }

  // ----- meaning

  predicate Fits(input: Tensor, inputs: nat) {
    forall k :: 0 <= k < |input| ==> |input[k]| == inputs
  }

  function DenseOn(l: Linear, input: Tensor): (output: Tensor)
    requires Fits(input, l.inputs)
    ensures |output| == |input| && forall k :: 0 <= k < |input| ==> output[k] == Forward(l, input[k])
  {
    seq(|input|, k requires 0 <= k < |input| => Forward(l, input[k]))
  }

  function AdapterInput(l: LoRALinear, drop: Dropout, k: nat, x: Vector): (v: Vector)
    ensures |v| == |x|
  {
    if l.hasDropout then drop(l, k, x) else x
  }

  function AdaptedOn(l: LoRALinear, drop: Dropout, input: Tensor): (output: Tensor)
    requires Fits(input, l.base.inputs)
    ensures |output| == |input|
    ensures forall k :: 0 <= k < |input| ==>
              output[k] == AdaptedForward(l, input[k], AdapterInput(l, drop, k, input[k]))
  {
    seq(|input|, k requires 0 <= k < |input| => AdaptedForward(l, input[k], AdapterInput(l, drop, k, input[k])))
  }

  /** The index of the child of that name, or the number of children. */
  function Find(children: seq<Child>, name: string, n: nat): (k: nat)
    requires n <= |children|
    ensures k <= |children| && (k < |children| ==> children[k].name == name)
    decreases |children| - n
  {
    if n == |children| then n
    else if children[n].name == name then n
    else Find(children, name, n + 1)
  }

  function Evaluate(m: Module, operations: Operations, drop: Dropout, input: Tensor): Option<Tensor>
    decreases m, 1, Input
  {
    match m
    case Dense(l) => if Fits(input, l.inputs) then Some(DenseOn(l, input)) else None
    case Adapted(l) => if Fits(input, l.base.inputs) then Some(AdaptedOn(l, drop, input)) else None
    case Other(operation) => operations(operation, input, [])
    case Container(_, wiring) => Run(wiring, m, operations, drop, input)
  }

  function Run(w: Wiring, m: Module, operations: Operations, drop: Dropout, input: Tensor): Option<Tensor>
    requires m.Container?
    decreases m, 0, w
  {
    match w
    case Input => Some(input)
    case Call(name, argument) =>
      var value := Run(argument, m, operations, drop, input);
      var k := Find(m.children, name, 0);
      if value.None? || k == |m.children| then None
      else Evaluate(m.children[k].module_, operations, drop, value.value)
    case Combine(operation, left, right) =>
      var a, b := Run(left, m, operations, drop, input), Run(right, m, operations, drop, input);
      if a.None? || b.None? then None else operations(operation, a.value, b.value)
  }

  // ----- stripping adapters

  /** What stripping puts in place of one child: adapters are merged, everything else is searched. */
  function Stripped(m: Module): Module
    decreases m, 2, 0
  {
    if m.Adapted? then Dense(Merge(m.adapter)) else Strip(m)
  }

  function Strip(m: Module): Module
    decreases m, 1, 0
  {
    if m.Container? then Container(StripFirst(m, |m.children|), m.wiring) else m
  }

  function StripFirst(m: Module, n: nat): (children: seq<Child>)
    requires m.Container? && n <= |m.children|
    ensures |children| == n
    ensures forall k :: 0 <= k < n ==> children[k] == Child(m.children[k].name, Stripped(m.children[k].module_))
    decreases m, 0, n
  {
    if n == 0 then []
    else StripFirst(m, n - 1) + [Child(m.children[n - 1].name, Stripped(m.children[n - 1].module_))]
  }

  /** No adapter is left below the root. */
  predicate AdapterFree(m: Module)
    decreases m
  {
    m.Container? ==>
      forall k :: 0 <= k < |m.children| ==> !m.children[k].module_.Adapted? && AdapterFree(m.children[k].module_)
  }

  // ----- installing adapters

  datatype LoraConfig = LoraConfig(targets: set<string>, rank: nat, alpha: real, hasDropout: bool)

  /** The initial entries of `A`, by module path, row and column. */
  type Initial = (string, nat, nat) -> real

  function InitialA(initial: Initial, path: string, rank: nat, inputs: nat): (a: Matrix)
    ensures |a| == rank && HasColumns(a, inputs)
  {
    seq(rank, k requires 0 <= k < rank => seq(inputs, j requires 0 <= j < inputs => initial(path, k, j)))
  }

  function Join(prefix: string, name: string): string {
    if prefix == "" then name else prefix + "." + name
  }

  /** Names from the root down, with dots in between. */
  function Dotted(names: seq<string>): string
    requires names != []
    decreases |names|
  {
    if |names| == 1 then names[0] else names[0] + "." + Dotted(names[1..])
  }

  /** So the path of a module is made of the names from the root down to it. */
  lemma JoinIsDotted(names: seq<string>, name: string)
    requires names != [] && names[0] != ""
    ensures Join(Dotted(names), name) == Dotted(names + [name]) && Join("", name) == Dotted([name])
  {
    DottedTail(names, name);
  }

  lemma {:induction false} DottedTail(names: seq<string>, name: string)
    requires names != []
    ensures Dotted(names + [name]) == Dotted(names) + "." + name
    decreases |names|
  {
    var longer := names + [name];
    assert longer[0] == names[0] && longer[1..] == names[1..] + [name];
    if |names| > 1 {
      DottedTail(names[1..], name);
      assert names[0] + "." + (Dotted(names[1..]) + "." + name) == names[0] + "." + Dotted(names[1..]) + "." + name;
    } else {
      assert longer[1..] == [name];
    }
  }

  /** What installing puts in place of one child: an adapter over a targeted linear layer. */
  function Adapt(m: Module, name: string, path: string, cfg: LoraConfig, initial: Initial): Module
    requires cfg.rank > 0
    decreases m, 2, 0
  {
    if m.Dense? && name in cfg.targets
    then Adapted(Fresh(m.layer, InitialA(initial, path, cfg.rank, m.layer.inputs), cfg.alpha, cfg.hasDropout))
    else ApplyLora(m, path, cfg, initial)
  }

  function ApplyLora(m: Module, path: string, cfg: LoraConfig, initial: Initial): Module
    requires cfg.rank > 0
    decreases m, 1, 0
  {
    if m.Container? then Container(AdaptFirst(m, path, cfg, initial, |m.children|), m.wiring) else m
  }

  function AdaptFirst(m: Module, path: string, cfg: LoraConfig, initial: Initial, n: nat): (children: seq<Child>)
    requires m.Container? && n <= |m.children| && cfg.rank > 0
    ensures |children| == n
    ensures forall k :: 0 <= k < n ==> children[k] == AdaptChild(m.children[k], path, cfg, initial)
    decreases m, 0, n
  {
    if n == 0 then []
    else AdaptFirst(m, path, cfg, initial, n - 1) + [AdaptChild(m.children[n - 1], path, cfg, initial)]
  }

  function AdaptChild(c: Child, path: string, cfg: LoraConfig, initial: Initial): Child
    requires cfg.rank > 0
    decreases c.module_, 3, 0
  {
    Child(c.name, Adapt(c.module_, c.name, Join(path, c.name), cfg, initial))
  }

  /** The adapters installing puts in place, by their path; a later one replaces an earlier one of the same path. */
  function Installed(m: Module, name: string, path: string, cfg: LoraConfig, initial: Initial): map<string, LoRALinear>
    requires cfg.rank > 0
    decreases m, 2, 0
  {
    if m.Dense? && name in cfg.targets
    then map[path := Fresh(m.layer, InitialA(initial, path, cfg.rank, m.layer.inputs), cfg.alpha, cfg.hasDropout)]
    else InstalledBelow(m, path, cfg, initial)
  }

  function InstalledBelow(m: Module, path: string, cfg: LoraConfig, initial: Initial): map<string, LoRALinear>
    requires cfg.rank > 0
    decreases m, 1, 0
  {
    if m.Container? then InstalledFirst(m, path, cfg, initial, |m.children|) else map[]
  }

  function InstalledFirst(m: Module, path: string, cfg: LoraConfig, initial: Initial, n: nat): map<string, LoRALinear>
    requires m.Container? && n <= |m.children| && cfg.rank > 0
    decreases m, 0, n
  {
    if n == 0 then map[]
    else InstalledFirst(m, path, cfg, initial, n - 1) + InstalledAt(m.children[n - 1], path, cfg, initial)
  }

  function InstalledAt(c: Child, path: string, cfg: LoraConfig, initial: Initial): map<string, LoRALinear>
    requires cfg.rank > 0
    decreases c.module_, 3, 0
  {
    Installed(c.module_, c.name, Join(path, c.name), cfg, initial)
  }

  /** All adapters of a tree, by their path. */
  function Adapters(m: Module, path: string): map<string, LoRALinear>
    decreases m, 1
  {
    match m
    case Adapted(l) => map[path := l]
    case Container(_, _) => AdaptersFirst(m, path, |m.children|)
    case _ => map[]
  }

  function AdaptersFirst(m: Module, path: string, n: nat): map<string, LoRALinear>
    requires m.Container? && n <= |m.children|
    decreases m, 0, n
  {
    if n == 0 then map[]
    else AdaptersFirst(m, path, n - 1) + AdaptersAt(m.children[n - 1], path)
  }

  function AdaptersAt(c: Child, path: string): map<string, LoRALinear>
    decreases c.module_, 2, 0
  {
    Adapters(c.module_, Join(path, c.name))
  }

  // ----- meaning is preserved

  ghost predicate SameNames(a: seq<Child>, b: seq<Child>) {
    |a| == |b| && forall k :: 0 <= k < |a| ==> a[k].name == b[k].name
  }

  lemma {:induction false} FindSame(a: seq<Child>, b: seq<Child>, name: string, n: nat)
    requires SameNames(a, b) && n <= |a|
    ensures Find(a, name, n) == Find(b, name, n)
    decreases |a| - n
  {
    if n < |a| {
      FindSame(a, b, name, n + 1);
    }
  }

  /** Two containers wired alike compute the same when children of the same name do. */
  lemma {:induction false} RunSame(w: Wiring, a: Module, b: Module, operations: Operations, drop: Dropout,
                                   input: Tensor)
    requires a.Container? && b.Container? && SameNames(a.children, b.children)
    requires forall k, x :: 0 <= k < |a.children| ==>
               Evaluate(a.children[k].module_, operations, drop, x)
               == Evaluate(b.children[k].module_, operations, drop, x)
    ensures Run(w, a, operations, drop, input) == Run(w, b, operations, drop, input)
  {
    match w
    case Input =>
    case Call(name, argument) =>
      RunSame(argument, a, b, operations, drop, input);
      FindSame(a.children, b.children, name, 0);
    case Combine(_, left, right) =>
      RunSame(left, a, b, operations, drop, input);
      RunSame(right, a, b, operations, drop, input);
  }

  lemma MergedOnSame(l: LoRALinear, drop: Dropout, input: Tensor)
    requires Inactive(drop) && Fits(input, l.base.inputs)
    ensures DenseOn(Merge(l), input) == AdaptedOn(l, drop, input)
  {
    forall k | 0 <= k < |input| ensures DenseOn(Merge(l), input)[k] == AdaptedOn(l, drop, input)[k] {
      MergePreservesForward(l, input[k]);
    }
  }

  /** Stripping the adapters of a whole tree changes no output, dropout being inactive. */
  lemma {:induction false} StripPreservesMeaning(m: Module, operations: Operations, drop: Dropout, input: Tensor)
    requires Inactive(drop)
    ensures Evaluate(Stripped(m), operations, drop, input) == Evaluate(m, operations, drop, input)
    decreases m
  {
    match m
    case Dense(_) =>
    case Other(_) =>
    case Adapted(l) =>
      if Fits(input, l.base.inputs) {
        MergedOnSame(l, drop, input);
      }
    case Container(children, wiring) =>
      forall k, x | 0 <= k < |children|
        ensures Evaluate(Stripped(children[k].module_), operations, drop, x)
                == Evaluate(children[k].module_, operations, drop, x)
      {
        StripPreservesMeaning(children[k].module_, operations, drop, x);
      }
      RunSame(wiring, Strip(m), m, operations, drop, input);
  }

  lemma FreshOnSame(l: Linear, a: Matrix, alpha: real, hasDropout: bool, drop: Dropout, input: Tensor)
    requires a != [] && HasColumns(a, l.inputs) && Fits(input, l.inputs)
    ensures AdaptedOn(Fresh(l, a, alpha, hasDropout), drop, input) == DenseOn(l, input)
  {
    var adapter := Fresh(l, a, alpha, hasDropout);
    forall k | 0 <= k < |input| ensures AdaptedOn(adapter, drop, input)[k] == DenseOn(l, input)[k] {
      FreshAdapterIsIdle(l, a, alpha, hasDropout, input[k], AdapterInput(adapter, drop, k, input[k]));
    }
  }

  /** Installing fresh adapters changes no output, whatever `A` and dropout are. */
  lemma {:induction false} ApplyPreservesMeaning(m: Module, name: string, path: string, cfg: LoraConfig,
                                                 initial: Initial, operations: Operations, drop: Dropout, input: Tensor)
    requires cfg.rank > 0
    ensures Evaluate(Adapt(m, name, path, cfg, initial), operations, drop, input)
            == Evaluate(m, operations, drop, input)
    decreases m
  {
    match m
    case Other(_) =>
    case Adapted(_) =>
    case Dense(l) =>
      if name in cfg.targets && Fits(input, l.inputs) {
        FreshOnSame(l, InitialA(initial, path, cfg.rank, l.inputs), cfg.alpha, cfg.hasDropout, drop, input);
      }
    case Container(children, wiring) =>
      var adapted := ApplyLora(m, path, cfg, initial);
      forall k, x | 0 <= k < |children|
        ensures Evaluate(adapted.children[k].module_, operations, drop, x)
                == Evaluate(children[k].module_, operations, drop, x)
      {
        ApplyPreservesMeaning(children[k].module_, children[k].name, Join(path, children[k].name), cfg, initial,
                              operations, drop, x);
      }
      RunSame(wiring, adapted, m, operations, drop, input);
  }

  // ----- stripping is complete, and undoes installing

  lemma {:induction false} StripLeavesNoAdapter(m: Module)
    ensures AdapterFree(Strip(m)) && !Stripped(m).Adapted? && AdapterFree(Stripped(m))
    decreases m
  {
    if m.Container? {
      forall k | 0 <= k < |m.children|
        ensures !Stripped(m.children[k].module_).Adapted? && AdapterFree(Stripped(m.children[k].module_))
      {
        StripLeavesNoAdapter(m.children[k].module_);
      }
    }
  }

  /** A tree without adapters is left as it is. */
  lemma {:induction false} StripIsIdle(m: Module)
    requires AdapterFree(m)
    ensures Strip(m) == m
    decreases m
  {
    if m.Container? {
      forall k | 0 <= k < |m.children| ensures StripFirst(m, |m.children|)[k] == m.children[k] {
        StripIsIdle(m.children[k].module_);
      }
      assert StripFirst(m, |m.children|) == m.children;
    }
  }

  /** So a second strip finds nothing to do. */
  lemma StripTwice(m: Module)
    ensures Strip(Strip(m)) == Strip(m)
  {
    StripLeavesNoAdapter(m);
    StripIsIdle(Strip(m));
  }

  /** Installing adapters and stripping them untrained gives back the very same tree. */
  lemma {:induction false} StripUndoesApply(m: Module, name: string, path: string, cfg: LoraConfig, initial: Initial)
    requires AdapterFree(m) && !m.Adapted? && cfg.rank > 0
    ensures Stripped(Adapt(m, name, path, cfg, initial)) == m
    decreases m
  {
    if m.Dense? && name in cfg.targets {
      FreshAdapterMergesAway(m.layer, InitialA(initial, path, cfg.rank, m.layer.inputs), cfg.alpha, cfg.hasDropout);
    } else if m.Container? {
      var adapted := ApplyLora(m, path, cfg, initial);
      forall k | 0 <= k < |m.children| ensures StripFirst(adapted, |m.children|)[k] == m.children[k] {
        var child := m.children[k];
        StripUndoesApply(child.module_, child.name, Join(path, child.name), cfg, initial);
      }
      assert StripFirst(adapted, |m.children|) == m.children;
    }
  }

  // ----- the dictionary of adapters

  /** The union of the first `n` maps, later ones taking precedence. */
  function Union<K, V>(all: seq<map<K, V>>, n: nat): map<K, V>
    requires n <= |all|
  {
    if n == 0 then map[] else Union(all, n - 1) + all[n - 1]
  }

  lemma {:induction false} InstalledIsUnion(m: Module, path: string, cfg: LoraConfig, initial: Initial, n: nat,
                                            all: seq<map<string, LoRALinear>>)
    requires cfg.rank > 0 && m.Container? && n <= |m.children| == |all|
    requires forall k :: 0 <= k < n ==> all[k] == InstalledAt(m.children[k], path, cfg, initial)
    ensures InstalledFirst(m, path, cfg, initial, n) == Union(all, n)
  {
    if n > 0 {
      InstalledIsUnion(m, path, cfg, initial, n - 1, all);
    }
  }

  lemma OneMoreAdapters(m: Module, path: string, n: nat)
    requires m.Container? && 0 < n <= |m.children|
    ensures AdaptersFirst(m, path, n) == AdaptersFirst(m, path, n - 1) + AdaptersAt(m.children[n - 1], path)
  {
  }

  lemma {:induction false} AdaptersIsUnion(m: Module, path: string, n: nat, all: seq<map<string, LoRALinear>>)
    requires m.Container? && n <= |m.children| == |all|
    requires forall k :: 0 <= k < n ==> all[k] == AdaptersAt(m.children[k], path)
    ensures AdaptersFirst(m, path, n) == Union(all, n)
  {
    if n > 0 {
      AdaptersIsUnion(m, path, n - 1, all);
      OneMoreAdapters(m, path, n);
    }
  }

  /** Installing into a tree without adapters reports exactly the adapters the tree then has. */
  lemma {:induction false} InstalledAreTheAdapters(m: Module, name: string, path: string, cfg: LoraConfig,
                                                   initial: Initial)
    requires cfg.rank > 0 && AdapterFree(m) && !m.Adapted?
    ensures Installed(m, name, path, cfg, initial) == Adapters(Adapt(m, name, path, cfg, initial), path)
    ensures InstalledBelow(m, path, cfg, initial) == Adapters(ApplyLora(m, path, cfg, initial), path)
    decreases m
  {
    if m.Container? {
      var adapted := ApplyLora(m, path, cfg, initial);
      var all := seq(|m.children|, k requires 0 <= k < |m.children| => InstalledAt(m.children[k], path, cfg, initial));
      forall k | 0 <= k < |m.children| ensures all[k] == AdaptersAt(adapted.children[k], path) {
        var c := m.children[k];
        InstalledAreTheAdapters(c.module_, c.name, Join(path, c.name), cfg, initial);
      }
      InstalledIsUnion(m, path, cfg, initial, |m.children|, all);
      AdaptersIsUnion(adapted, path, |m.children|, all);
    }
  }
}
