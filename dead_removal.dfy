/**
 * The dead-code removal pass of the front end
 * (src/frontend/function_transforms/pass_dead_removal.py): starting from the function's
 * expression, follow every assignment it (transitively) uses, record which inputs,
 * assignments and constants are reached, and return the three dictionaries restricted to
 * the reached names, in their original order.
 *
 * A Python expression node is a tuple whose first item is a string tag; a name is a
 * string. Both are `Value`s here. The dictionaries are insertion-ordered (`ODict`).
 */
module PassDeadRemoval {
  import opened Wrappers

  /** A Python value reachable from an expression: a string or a tuple of values. */
  datatype Value = Str(s: string) | Tup(items: seq<Value>)

  /**
   * An insertion-ordered dictionary from names to values (`collections.OrderedDict`):
   * the keys in insertion order and the mapping itself.
   */
  datatype ODict = ODict(keys: seq<string>, entries: map<string, Value>)

  predicate Distinct<T(==)>(s: seq<T>) {
    forall i, j :: 0 <= i < j < |s| ==> s[i] != s[j]
  }

  /** Every key occurs once in `keys`, and `keys` lists exactly the mapped names. */
  ghost predicate WellFormed(d: ODict) {
    && Distinct(d.keys)
    && (forall k :: k in d.entries <==> k in d.keys)
  }

  /**
   * The operator tag sets `BINOPS` and `UNOPS` of the front end's utilities; their
   * contents are fixed elsewhere, so they are parameters here.
   */
  datatype Tags = Tags(binops: set<string>, unops: set<string>)

  /** Tags whose node has two children (`TWO_ITEMS`). */
  function TwoItems(t: Tags): (r: set<string>)
    ensures "Tuple" in r && t.binops <= r
  {
    t.binops + {"Tuple"}
  }

  /** Tags whose node has one child (`ONE_ITEM`). */
  function OneItem(t: Tags): (r: set<string>)
    ensures "Return" in r && t.unops <= r
  {
    t.unops + {"Return"}
  }

  /** Leaf tags that mention no name (`UNUSED`). */
  const UNUSED: set<string> := {"ConstantInterval", "PointInterval", "Float", "Integer"}

  /**
   * How visiting a value can end the pass: the value is not a node (a bare string, whose
   * visit always ends in one of the two Python errors below), an item is missing
   * (`IndexError`), a variable has no assignment (`KeyError`), or the tag is unknown
   * (the error message and `sys.exit(-1)`).
   */
  datatype Failure = NotANode | MissingItem | MissingAssignment | UnknownTag

  // ---------------------------------------------------------------------------------------
  // What one expression mentions, as a pure descent
  // ---------------------------------------------------------------------------------------

  /** The inputs, variables and constants a node mentions, without following variables. */
  datatype Uses = Uses(inputs: set<Value>, vars: set<Value>, consts: set<Value>)

  const NOTHING: Uses := Uses({}, {}, {})

  function Join(a: Uses, b: Uses): (r: Uses)
    ensures r.inputs == a.inputs + b.inputs
    ensures r.vars == a.vars + b.vars
    ensures r.consts == a.consts + b.consts
  {
    Uses(a.inputs + b.inputs, a.vars + b.vars, a.consts + b.consts)
  }

  /** The branch of `_dead_removal` a node takes. */
  datatype Kind =
    | VariableNode | PairNode | ConstNode | InputNode | ChildNode | LeafNode | BoxNode
    | UnknownNode

  /**
   * The branch for a tag, tested in the source's order: `Variable`, the two-child tags,
   * `Const`, `Input`, the one-child tags, the leaf tags, `Box`, and otherwise none.
   */
  function KindOf(t: Tags, tag: string): Kind {
    if tag == "Variable" then VariableNode
    else if tag in TwoItems(t) then PairNode
    else if tag == "Const" then ConstNode
    else if tag == "Input" then InputNode
    else if tag in OneItem(t) then ChildNode
    else if tag in UNUSED then LeafNode
    else if tag == "Box" then BoxNode
    else UnknownNode
  }

  /**
   * The dispatch order of `KindOf`: `Variable` is tested first and the two-child tags next;
   * every other branch is taken only by its own tag or tag set, and the unknown-tag exit
   * exactly when the tag is in none of them.
   */
  lemma KindOfOrder(t: Tags, tag: string)
    ensures KindOf(t, tag) == VariableNode <==> tag == "Variable"
    ensures KindOf(t, tag) == PairNode <==> tag != "Variable" && tag in TwoItems(t)
    ensures KindOf(t, tag) == ConstNode ==> tag == "Const"
    ensures KindOf(t, tag) == InputNode ==> tag == "Input"
    ensures KindOf(t, tag) == ChildNode ==> tag in OneItem(t)
    ensures KindOf(t, tag) == LeafNode ==> tag in UNUSED
    ensures KindOf(t, tag) == BoxNode ==> tag == "Box"
    ensures KindOf(t, tag) == UnknownNode <==>
              && tag !in {"Variable", "Const", "Input", "Box"}
              && tag !in TwoItems(t) && tag !in OneItem(t) && tag !in UNUSED
  {
  }

  /** The descent of `_dead_removal` on one expression. */
  function Scan(t: Tags, e: Value): Result<Uses, Failure>
    decreases e
  {
    match e
    case Str(_) => Err(NotANode)
    case Tup(items) =>
      if |items| == 0 then Err(MissingItem)
      else if !items[0].Str? then Err(UnknownTag)
      else
        match KindOf(t, items[0].s)
        case VariableNode =>
          if |items| < 2 then Err(MissingItem) else Ok(Uses({}, {items[1]}, {}))
        case PairNode =>
          if |items| < 2 then Err(MissingItem)
          else
            (match Scan(t, items[1])
             case Err(f) => Err(f)
             case Ok(u) =>
               if |items| < 3 then Err(MissingItem)
               else
                 match Scan(t, items[2])
                 case Err(f) => Err(f)
                 case Ok(v) => Ok(Join(u, v)))
        case ConstNode =>
          if |items| < 2 then Err(MissingItem) else Ok(Uses({}, {}, {items[1]}))
        case InputNode =>
          if |items| < 2 then Err(MissingItem) else Ok(Uses({items[1]}, {}, {}))
        case ChildNode =>
          if |items| < 2 then Err(MissingItem) else Scan(t, items[1])
        case LeafNode => Ok(NOTHING)
        case BoxNode => ScanAll(t, items[1..])
        case UnknownNode => Err(UnknownTag)
  }

  /** The descent over the children of a `Box`, left to right. */
  function ScanAll(t: Tags, es: seq<Value>): Result<Uses, Failure>
    decreases es
  {
    if es == [] then Ok(NOTHING)
    else
      match Scan(t, es[0])
      case Err(f) => Err(f)
      case Ok(u) =>
        match ScanAll(t, es[1..])
        case Err(f) => Err(f)
        case Ok(v) => Ok(Join(u, v))
  }

  /** A two-child node visits both children and mentions what they mention. */
  lemma ScanPair(t: Tags, a: Value, b: Value, tag: string, rest: seq<Value>)
    requires KindOf(t, tag) == PairNode
    ensures Scan(t, Tup([Str(tag), a, b] + rest)).Ok? <==> Scan(t, a).Ok? && Scan(t, b).Ok?
    ensures Scan(t, Tup([Str(tag), a, b] + rest)).Ok? ==>
      Scan(t, Tup([Str(tag), a, b] + rest)).value == Join(Scan(t, a).value, Scan(t, b).value)
  {
    var items := [Str(tag), a, b] + rest;
    assert items[1] == a && items[2] == b;
  }

  /** A one-child node mentions what its child mentions. */
  lemma ScanChild(t: Tags, a: Value, tag: string, rest: seq<Value>)
    requires KindOf(t, tag) == ChildNode
    ensures Scan(t, Tup([Str(tag), a] + rest)) == Scan(t, a)
  {
    assert ([Str(tag), a] + rest)[1] == a;
  }

  /** A `Box` visits every child: each child's names are among the box's. */
  lemma {:induction false} ScanAllCoversChildren(t: Tags, es: seq<Value>, j: int)
    requires 0 <= j < |es|
    requires ScanAll(t, es).Ok?
    ensures Scan(t, es[j]).Ok?
    ensures Scan(t, es[j]).value.inputs <= ScanAll(t, es).value.inputs
    ensures Scan(t, es[j]).value.vars <= ScanAll(t, es).value.vars
    ensures Scan(t, es[j]).value.consts <= ScanAll(t, es).value.consts
    decreases |es|
  {
    if j > 0 {
      ScanAllCoversChildren(t, es[1..], j - 1);
      assert es[1..][j - 1] == es[j];
    }
  }

  /** A leaf tag mentions nothing, even with further items after it. */
  lemma ScanLeaf(t: Tags, tag: string, rest: seq<Value>)
    requires tag in UNUSED
    requires tag !in TwoItems(t) && tag !in OneItem(t)
    ensures Scan(t, Tup([Str(tag)] + rest)) == Ok(NOTHING)
  {
  }

  /** A node with an unrecognised tag is an error. */
  lemma ScanUnknown(t: Tags, tag: string, rest: seq<Value>)
    requires KindOf(t, tag) == UnknownNode
    ensures Scan(t, Tup([Str(tag)] + rest)) == Err(UnknownTag)
  {
  }

  /** Every name a variable node mentions must have an assignment. */
  predicate AllAssigned(assigns: map<string, Value>, vs: set<Value>) {
    forall v :: v in vs ==> v.Str? && v.s in assigns
  }

  lemma AllAssignedUnion(assigns: map<string, Value>, a: set<Value>, b: set<Value>)
    ensures AllAssigned(assigns, a + b) <==> AllAssigned(assigns, a) && AllAssigned(assigns, b)
  {
  }

  /** What the body of an assigned variable mentions, or nothing when it is not one. */
  function BodyUses(t: Tags, assigns: map<string, Value>, v: Value): (u: Uses)
    ensures v.Str? && v.s in assigns && Scan(t, assigns[v.s]).Ok? ==>
      u == Scan(t, assigns[v.s]).value
  {
    if v.Str? && v.s in assigns && Scan(t, assigns[v.s]).Ok? then Scan(t, assigns[v.s]).value
    else NOTHING
  }

  /**
   * A set of variables closed under use: each is assigned, its body can be visited, and the
   * variables of its body are in the set again.
   */
  ghost predicate Closed(t: Tags, assigns: map<string, Value>, vs: set<Value>) {
    forall v :: v in vs ==>
      && v.Str? && v.s in assigns
      && Scan(t, assigns[v.s]).Ok?
      && Scan(t, assigns[v.s]).value.vars <= vs
  }

  /** `vs` holds every variable `exp` needs and is closed under use. */
  ghost predicate Covers(t: Tags, assigns: map<string, Value>, exp: Value, vs: set<Value>) {
    && Scan(t, exp).Ok?
    && Scan(t, exp).value.vars <= vs
    && Closed(t, assigns, vs)
  }

  /** The inputs mentioned by `exp` or by the body of a variable in `vs`. */
  ghost function ReachedInputs(t: Tags, assigns: map<string, Value>, exp: Value, vs: set<Value>): set<Value> {
    (if Scan(t, exp).Ok? then Scan(t, exp).value.inputs else {}) +
    (set v, x | v in vs && x in BodyUses(t, assigns, v).inputs :: x)
  }

  /** The constants mentioned by `exp` or by the body of a variable in `vs`. */
  ghost function ReachedConsts(t: Tags, assigns: map<string, Value>, exp: Value, vs: set<Value>): set<Value> {
    (if Scan(t, exp).Ok? then Scan(t, exp).value.consts else {}) +
    (set v, x | v in vs && x in BodyUses(t, assigns, v).consts :: x)
  }

  // ---------------------------------------------------------------------------------------
  // One visit as a transition of the visitor's state
  // ---------------------------------------------------------------------------------------

  /**
   * The state `_dead_removal` updates: `used_inputs`, `used_assigns`, `used_consts` and
   * `work_stack`.
   */
  datatype State = State(inputs: set<Value>, assigns: set<Value>, consts: set<Value>, stack: seq<Value>)

  /** The state after a visit, and the variables it used for the first time, in order. */
  datatype Visited = Visited(st: State, added: seq<string>)

  /**
   * `_dead_removal(e)` run from state `st`, branch for branch: a variable not yet used is
   * marked used and then looked up, its body pushed; a two-child node visits its first child
   * and then its second; `Const` and `Input` record their name; a one-child node visits its
   * child; a leaf does nothing; a `Box` visits its children left to right.
   */
  function Step(t: Tags, assigns: map<string, Value>, st: State, e: Value): Result<Visited, Failure>
    decreases e
  {
    match e
    case Str(_) => Err(NotANode)
    case Tup(items) =>
      if |items| == 0 then Err(MissingItem)
      else if !items[0].Str? then Err(UnknownTag)
      else
        match KindOf(t, items[0].s)
        case VariableNode =>
          if |items| < 2 then Err(MissingItem)
          else if items[1] in st.assigns then Ok(Visited(st, []))
          else if !(items[1].Str? && items[1].s in assigns) then Err(MissingAssignment)
          else
            Ok(Visited(st.(assigns := st.assigns + {items[1]},
                           stack := st.stack + [assigns[items[1].s]]), [items[1].s]))
        case PairNode =>
          if |items| < 2 then Err(MissingItem)
          else
            (match Step(t, assigns, st, items[1])
             case Err(f) => Err(f)
             case Ok(v1) =>
               if |items| < 3 then Err(MissingItem)
               else
                 match Step(t, assigns, v1.st, items[2])
                 case Err(f) => Err(f)
                 case Ok(v2) => Ok(Visited(v2.st, v1.added + v2.added)))
        case ConstNode =>
          if |items| < 2 then Err(MissingItem)
          else Ok(Visited(st.(consts := st.consts + {items[1]}), []))
        case InputNode =>
          if |items| < 2 then Err(MissingItem)
          else Ok(Visited(st.(inputs := st.inputs + {items[1]}), []))
        case ChildNode =>
          if |items| < 2 then Err(MissingItem) else Step(t, assigns, st, items[1])
        case LeafNode => Ok(Visited(st, []))
        case BoxNode => StepAll(t, assigns, st, items[1..])
        case UnknownNode => Err(UnknownTag)
  }

  /** Visiting a sequence of expressions left to right, stopping at the first failure. */
  function StepAll(t: Tags, assigns: map<string, Value>, st: State, es: seq<Value>): Result<Visited, Failure>
    decreases es
  {
    if es == [] then Ok(Visited(st, []))
    else
      match Step(t, assigns, st, es[0])
      case Err(f) => Err(f)
      case Ok(v1) =>
        match StepAll(t, assigns, v1.st, es[1..])
        case Err(f) => Err(f)
        case Ok(v2) => Ok(Visited(v2.st, v1.added + v2.added))
  }

  /** `added` prepended to the variables of a later visit. */
  function After(added: seq<string>, r: Result<Visited, Failure>): Result<Visited, Failure> {
    match r
    case Err(f) => Err(f)
    case Ok(v) => Ok(Visited(v.st, added + v.added))
  }

  lemma AfterNothing(r: Result<Visited, Failure>)
    ensures After([], r) == r
  {
    if r.Ok? {
      assert [] + r.value.added == r.value.added;
    }
  }

  lemma AfterAfter(a: seq<string>, b: seq<string>, r: Result<Visited, Failure>)
    ensures After(a, After(b, r)) == After(a + b, r)
  {
    if r.Ok? {
      assert a + (b + r.value.added) == (a + b) + r.value.added;
    }
  }

  /** Every name in `names` is assigned. */
  predicate Assigned(assigns: map<string, Value>, names: seq<string>) {
    forall i :: 0 <= i < |names| ==> names[i] in assigns
  }

  /** The bodies of the assignments `names`, in the same order. */
  function Bodies(assigns: map<string, Value>, names: seq<string>): (bs: seq<Value>)
    requires Assigned(assigns, names)
    ensures |bs| == |names|
  {
    if names == [] then [] else [assigns[names[0]]] + Bodies(assigns, names[1..])
  }

  lemma {:induction false} BodiesAppend(assigns: map<string, Value>, a: seq<string>, b: seq<string>)
    requires Assigned(assigns, a) && Assigned(assigns, b)
    ensures Assigned(assigns, a + b)
    ensures Bodies(assigns, a + b) == Bodies(assigns, a) + Bodies(assigns, b)
    decreases |a|
  {
    if a == [] {
      assert a + b == b;
    } else {
      assert (a + b)[1..] == a[1..] + b;
      BodiesAppend(assigns, a[1..], b);
    }
  }

  /** `names` are distinct and none of them is used yet. */
  predicate FreshNames(names: seq<string>, used: set<Value>) {
    && Distinct(names)
    && (forall i :: 0 <= i < |names| ==> Str(names[i]) !in used)
  }

  lemma FreshAppend(a: seq<string>, b: seq<string>, used: set<Value>, more: set<Value>)
    requires FreshNames(a, used)
    requires forall n :: n in a ==> Str(n) in more
    requires FreshNames(b, used + more)
    ensures FreshNames(a + b, used)
  {
    forall i, j | 0 <= i < j < |a + b|
      ensures (a + b)[i] != (a + b)[j]
    {
      if i < |a| && j >= |a| {
        assert a[i] in a;
      }
    }
  }

  /**
   * The variables `added` used for the first time by a visit that meets the variables `vars`
   * with `used` already used: distinct, assigned, exactly the new ones among `vars`, and
   * their bodies pushed in order onto `stack`, giving `stack2`.
   */
  ghost predicate Pushes(assigns: map<string, Value>, used: set<Value>, vars: set<Value>,
                         added: seq<string>, stack: seq<Value>, stack2: seq<Value>) {
    && FreshNames(added, used)
    && (forall n :: n in added <==> Str(n) in vars && Str(n) !in used)
    && Assigned(assigns, added)
    && stack2 == stack + Bodies(assigns, added)
  }

  /**
   * The meaning of a visit that mentions `u`, taking `st` to `st2`: each used-set grows by
   * what is mentioned, and the variables used for the first time are pushed.
   */
  ghost predicate Follows(assigns: map<string, Value>, st: State, u: Uses, st2: State, added: seq<string>) {
    && st2.inputs == st.inputs + u.inputs
    && st2.assigns == st.assigns + u.vars
    && st2.consts == st.consts + u.consts
    && Pushes(assigns, st.assigns, u.vars, added, st.stack, st2.stack)
  }

  lemma NewNamesJoin(used: set<Value>, vars1: set<Value>, a1: seq<string>,
                     vars2: set<Value>, a2: seq<string>)
    requires forall n :: n in a1 <==> Str(n) in vars1 && Str(n) !in used
    requires forall n :: n in a2 <==> Str(n) in vars2 && Str(n) !in used + vars1
    ensures forall n :: n in a1 + a2 <==> Str(n) in vars1 + vars2 && Str(n) !in used
  {
    forall n
      ensures n in a1 + a2 <==> Str(n) in vars1 + vars2 && Str(n) !in used
    {
      assert n in a1 + a2 <==> n in a1 || n in a2;
    }
  }

  lemma PushesJoin(assigns: map<string, Value>, used: set<Value>, vars1: set<Value>,
                   a1: seq<string>, vars2: set<Value>, a2: seq<string>,
                   stack: seq<Value>, stack1: seq<Value>, stack2: seq<Value>)
    requires Pushes(assigns, used, vars1, a1, stack, stack1)
    requires Pushes(assigns, used + vars1, vars2, a2, stack1, stack2)
    ensures Pushes(assigns, used, vars1 + vars2, a1 + a2, stack, stack2)
  {
    FreshAppend(a1, a2, used, vars1);
    BodiesAppend(assigns, a1, a2);
    NewNamesJoin(used, vars1, a1, vars2, a2);
  }

  lemma FollowsJoin(assigns: map<string, Value>, st: State, u1: Uses, st1: State, a1: seq<string>,
                    u2: Uses, st2: State, a2: seq<string>)
    requires Follows(assigns, st, u1, st1, a1)
    requires Follows(assigns, st1, u2, st2, a2)
    ensures Follows(assigns, st, Join(u1, u2), st2, a1 + a2)
  {
    PushesJoin(assigns, st.assigns, u1.vars, a1, u2.vars, a2, st.stack, st1.stack, st2.stack);
  }

  /**
   * A visit from a state whose used variables are all assigned succeeds exactly when the
   * descent does and every variable it meets is assigned; it then follows what `e` mentions.
   */
  lemma {:induction false} StepMeaning(t: Tags, assigns: map<string, Value>, st: State, e: Value)
    requires AllAssigned(assigns, st.assigns)
    ensures Step(t, assigns, st, e).Ok? <==>
      Scan(t, e).Ok? && AllAssigned(assigns, Scan(t, e).value.vars)
    ensures Step(t, assigns, st, e).Ok? ==>
      Follows(assigns, st, Scan(t, e).value, Step(t, assigns, st, e).value.st,
              Step(t, assigns, st, e).value.added)
    decreases e, 1
  {
    match e
    case Str(_) =>
    case Tup(items) =>
      if |items| >= 2 && items[0].Str? {
        match KindOf(t, items[0].s)
        case VariableNode =>
        case PairNode =>
          StepPairMeaning(t, assigns, st, e, items);
        case ConstNode =>
        case InputNode =>
        case ChildNode =>
          StepMeaning(t, assigns, st, items[1]);
        case LeafNode =>
        case BoxNode =>
          StepAllMeaning(t, assigns, st, items[1..]);
        case UnknownNode =>
      }
  }

  lemma {:induction false} StepPairMeaning(t: Tags, assigns: map<string, Value>, st: State,
                                          e: Value, items: seq<Value>)
    requires AllAssigned(assigns, st.assigns)
    requires e == Tup(items) && |items| >= 2 && items[0].Str? && KindOf(t, items[0].s) == PairNode
    ensures Step(t, assigns, st, e).Ok? <==>
      Scan(t, e).Ok? && AllAssigned(assigns, Scan(t, e).value.vars)
    ensures Step(t, assigns, st, e).Ok? ==>
      Follows(assigns, st, Scan(t, e).value, Step(t, assigns, st, e).value.st,
              Step(t, assigns, st, e).value.added)
    decreases e, 0
  {
    StepMeaning(t, assigns, st, items[1]);
    if Step(t, assigns, st, items[1]).Ok? && |items| >= 3 {
      var v1 := Step(t, assigns, st, items[1]).value;
      var u1 := Scan(t, items[1]).value;
      StepMeaning(t, assigns, v1.st, items[2]);
      if Step(t, assigns, v1.st, items[2]).Ok? {
        var v2 := Step(t, assigns, v1.st, items[2]).value;
        FollowsJoin(assigns, st, u1, v1.st, v1.added, Scan(t, items[2]).value, v2.st, v2.added);
      }
      if Scan(t, items[2]).Ok? {
        AllAssignedUnion(assigns, u1.vars, Scan(t, items[2]).value.vars);
      }
    }
  }

  lemma {:induction false} StepAllMeaning(t: Tags, assigns: map<string, Value>, st: State, es: seq<Value>)
    requires AllAssigned(assigns, st.assigns)
    ensures StepAll(t, assigns, st, es).Ok? <==>
      ScanAll(t, es).Ok? && AllAssigned(assigns, ScanAll(t, es).value.vars)
    ensures StepAll(t, assigns, st, es).Ok? ==>
      Follows(assigns, st, ScanAll(t, es).value, StepAll(t, assigns, st, es).value.st,
              StepAll(t, assigns, st, es).value.added)
    decreases es, 0
  {
    if es != [] {
      StepMeaning(t, assigns, st, es[0]);
      if Step(t, assigns, st, es[0]).Ok? {
        var v1 := Step(t, assigns, st, es[0]).value;
        var u1 := Scan(t, es[0]).value;
        StepAllMeaning(t, assigns, v1.st, es[1..]);
        if StepAll(t, assigns, v1.st, es[1..]).Ok? {
          var v2 := StepAll(t, assigns, v1.st, es[1..]).value;
          FollowsJoin(assigns, st, u1, v1.st, v1.added, ScanAll(t, es[1..]).value, v2.st, v2.added);
        }
        if ScanAll(t, es[1..]).Ok? {
          AllAssignedUnion(assigns, u1.vars, ScanAll(t, es[1..]).value.vars);
        }
      }
    }
  }

  // ---------------------------------------------------------------------------------------
  // The visitor: the closure `_dead_removal` over the pass's used-sets and work stack
  // ---------------------------------------------------------------------------------------

  class Walker {
    const tags: Tags
    const assigns: map<string, Value>
    var usedInputs: set<Value>
    var usedAssigns: set<Value>
    var usedConsts: set<Value>
    var workStack: seq<Value>

    /** The visitor's state as a value. */
    function Snapshot(): State
      reads this
    {
      State(usedInputs, usedAssigns, usedConsts, workStack)
    }

    /** The pass's initial state: nothing used and an empty work stack. */
    constructor (tags: Tags, assigns: map<string, Value>)
      ensures this.tags == tags && this.assigns == assigns
      ensures Snapshot() == State({}, {}, {}, [])
    {
      this.tags := tags;
      this.assigns := assigns;
      usedInputs, usedAssigns, usedConsts := {}, {}, {};
      workStack := [];
    }

    /** `_dead_removal(e)`: the state moves as `Step` says, and fails when it fails. */
    method Visit(e: Value) returns (r: Result<(), Failure>, ghost added: seq<string>)
      modifies this
      ensures r.Ok? <==> Step(tags, assigns, old(Snapshot()), e).Ok?
      ensures r.Ok? ==> Step(tags, assigns, old(Snapshot()), e) == Ok(Visited(Snapshot(), added))
      decreases e, 1
    {
      added := [];
      match e
      case Str(_) =>
        r := Err(NotANode);
      case Tup(items) =>
        if |items| == 0 {
          r := Err(MissingItem);
        } else if !items[0].Str? {
          r := Err(UnknownTag);
        } else {
          var kind := KindOf(tags, items[0].s);
          if |items| < 2 && kind in {VariableNode, PairNode, ConstNode, InputNode, ChildNode} {
            r := Err(MissingItem);
            return;
          }
          match kind
          case VariableNode =>
            var name := items[1];
            r := Ok(());
            if name !in usedAssigns {
              usedAssigns := usedAssigns + {name};
              if !(name.Str? && name.s in assigns) {
                r := Err(MissingAssignment);
                return;
              }
              workStack := workStack + [assigns[name.s]];
              added := [name.s];
            }
          case PairNode =>
            ghost var a1, a2;
            r, a1 := Visit(items[1]);
            if r.Err? {
              return;
            }
            if |items| < 3 {
              r := Err(MissingItem);
              return;
            }
            r, a2 := Visit(items[2]);
            added := a1 + a2;
          case ConstNode =>
            usedConsts := usedConsts + {items[1]};
            r := Ok(());
          case InputNode =>
            usedInputs := usedInputs + {items[1]};
            r := Ok(());
          case ChildNode =>
            r, added := Visit(items[1]);
          case LeafNode =>
            r := Ok(());
          case BoxNode =>
            r, added := VisitAll(items[1..]);
          case UnknownNode =>
            r := Err(UnknownTag);
        }
    }

    /** The loop `for e in exp[1:]` of the `Box` case. */
    method VisitAll(es: seq<Value>) returns (r: Result<(), Failure>, ghost added: seq<string>)
      modifies this
      ensures r.Ok? <==> StepAll(tags, assigns, old(Snapshot()), es).Ok?
      ensures r.Ok? ==> StepAll(tags, assigns, old(Snapshot()), es) == Ok(Visited(Snapshot(), added))
      decreases es, 0
    {
      added := [];
      r := Ok(());
      var j := 0;
      assert es[j..] == es;
      AfterNothing(StepAll(tags, assigns, Snapshot(), es));
      while j < |es|
        invariant 0 <= j <= |es| && r.Ok?
        invariant StepAll(tags, assigns, old(Snapshot()), es) ==
                  After(added, StepAll(tags, assigns, Snapshot(), es[j..]))
      {
        ghost var aj;
        ghost var before := Snapshot();
        assert es[j..][0] == es[j] && es[j..][1..] == es[j + 1..];
        r, aj := Visit(es[j]);
        if r.Err? {
          assert StepAll(tags, assigns, before, es[j..]).Err?;
          return;
        }
        AfterAfter(added, aj, StepAll(tags, assigns, Snapshot(), es[j + 1..]));
        added := added + aj;
        j := j + 1;
      }
      assert added + [] == added;
    }

    /** `work_stack.pop()`. */
    method Pop() returns (body: Value)
      requires |workStack| > 0
      modifies this
      ensures body == old(workStack)[|old(workStack)| - 1]
      ensures Snapshot() == old(Snapshot()).(stack := old(workStack)[..|old(workStack)| - 1])
    {
      body := workStack[|workStack| - 1];
      workStack := workStack[..|workStack| - 1];
    }
  }

  // ---------------------------------------------------------------------------------------
  // Restricting an ordered dictionary to the reached names
  // ---------------------------------------------------------------------------------------

  /** The names of `ks` that are in `keep`, in their order in `ks`. */
  function Filter(ks: seq<string>, keep: set<Value>): (r: seq<string>)
    ensures forall k :: k in r <==> k in ks && Str(k) in keep
  {
    if ks == [] then []
    else
      Filter(ks[..|ks| - 1], keep) + (if Str(ks[|ks| - 1]) in keep then [ks[|ks| - 1]] else [])
  }

  /** The entries of `d` named in `ks` and in `keep`, in the order of `ks`. */
  function Select(d: ODict, ks: seq<string>, keep: set<Value>): ODict {
    ODict(Filter(ks, keep), map k | k in ks && k in d.entries && Str(k) in keep :: d.entries[k])
  }

  /** `d` restricted to the names in `keep`, in the original order. */
  function Restrict(d: ODict, keep: set<Value>): ODict {
    Select(d, d.keys, keep)
  }

  /** `d[k] = v` on an ordered dictionary: a new key goes last, an old one keeps its place. */
  function Put(d: ODict, k: string, v: Value): (r: ODict)
    ensures r.entries == d.entries[k := v]
    ensures k in d.entries ==> r.keys == d.keys
    ensures k !in d.entries ==> r.keys == d.keys + [k]
  {
    ODict(if k in d.entries then d.keys else d.keys + [k], d.entries[k := v])
  }

  lemma SelectSnoc(d: ODict, ks: seq<string>, k: string, keep: set<Value>)
    requires k !in ks && k in d.entries
    ensures Str(k) in keep ==> Select(d, ks + [k], keep) == Put(Select(d, ks, keep), k, d.entries[k])
    ensures Str(k) !in keep ==> Select(d, ks + [k], keep) == Select(d, ks, keep)
  {
    assert (ks + [k])[..|ks + [k]| - 1] == ks;
  }

  /**
   * The filtering loops at the end of the pass: `new[k] = d[k]` for each key `k` of `d`, in
   * order, that is in `keep`.
   */
  method FilterDict(d: ODict, keep: set<Value>) returns (r: ODict)
    requires WellFormed(d)
    ensures r == Restrict(d, keep)
  {
    r := ODict([], map[]);
    for i := 0 to |d.keys|
      invariant r == Select(d, d.keys[..i], keep)
    {
      var k := d.keys[i];
      assert d.keys[..i + 1] == d.keys[..i] + [k];
      SelectSnoc(d, d.keys[..i], k, keep);
      if Str(k) in keep {
        r := Put(r, k, d.entries[k]);
      }
    }
    assert d.keys[..|d.keys|] == d.keys;
  }

  lemma {:induction false} FilterDistinct(ks: seq<string>, keep: set<Value>)
    requires Distinct(ks)
    ensures Distinct(Filter(ks, keep))
    decreases |ks|
  {
    if ks != [] {
      var init := ks[..|ks| - 1];
      assert Distinct(init) by {
        forall i, j | 0 <= i < j < |init| ensures init[i] != init[j] {
          assert init[i] == ks[i] && init[j] == ks[j];
        }
      }
      FilterDistinct(init, keep);
      assert ks[|ks| - 1] !in init;
    }
  }

  /**
   * A restricted dictionary is well formed, maps exactly the kept keys of `d`, and maps
   * each of them to its value in `d`.
   */
  lemma RestrictSubDict(d: ODict, keep: set<Value>)
    requires WellFormed(d)
    ensures WellFormed(Restrict(d, keep))
    ensures forall k :: k in Restrict(d, keep).entries <==> k in d.entries && Str(k) in keep
    ensures forall k :: k in Restrict(d, keep).entries ==> Restrict(d, keep).entries[k] == d.entries[k]
  {
    FilterDistinct(d.keys, keep);
  }

  /** `x` comes before `y` in `ks`. */
  ghost predicate Before(ks: seq<string>, x: string, y: string) {
    exists i, j :: 0 <= i < j < |ks| && ks[i] == x && ks[j] == y
  }

  lemma {:induction false} FilterKeepsOrder(ks: seq<string>, keep: set<Value>)
    ensures forall a, b :: 0 <= a < b < |Filter(ks, keep)| ==>
      Before(ks, Filter(ks, keep)[a], Filter(ks, keep)[b])
    decreases |ks|
  {
    if ks != [] {
      var init := ks[..|ks| - 1];
      var f := Filter(ks, keep);
      var g := Filter(init, keep);
      FilterKeepsOrder(init, keep);
      forall a, b | 0 <= a < b < |f|
        ensures Before(ks, f[a], f[b])
      {
        if b < |g| {
          assert f[a] == g[a] && f[b] == g[b];
          assert Before(init, g[a], g[b]);
          var i, j :| 0 <= i < j < |init| && init[i] == g[a] && init[j] == g[b];
          assert ks[i] == f[a] && ks[j] == f[b];
        } else {
          assert f[a] == g[a] && g[a] in init;
          var i :| 0 <= i < |init| && init[i] == g[a];
          assert ks[i] == f[a] && ks[|ks| - 1] == f[b];
        }
      }
    }
  }

  /** A restricted dictionary keeps the keys in their original order. */
  lemma RestrictKeepsOrder(d: ODict, keep: set<Value>)
    ensures forall a, b :: 0 <= a < b < |Restrict(d, keep).keys| ==>
      Before(d.keys, Restrict(d, keep).keys[a], Restrict(d, keep).keys[b])
  {
    FilterKeepsOrder(d.keys, keep);
  }

  // ---------------------------------------------------------------------------------------
  // The worklist loop and the pass
  // ---------------------------------------------------------------------------------------

  /** No set of variables covers `exp`: the pass cannot succeed. */
  ghost predicate Uncoverable(t: Tags, assigns: map<string, Value>, exp: Value) {
    forall vs :: !Covers(t, assigns, exp, vs)
  }

  /** `used` lies inside every set of variables that covers `exp`. */
  ghost predicate BelowCovers(t: Tags, assigns: map<string, Value>, exp: Value, used: set<Value>) {
    forall vs :: Covers(t, assigns, exp, vs) ==> used <= vs
  }

  /**
   * The state of the worklist loop: `pending` names the bodies on the stack (bottom first),
   * `done` the used variables whose bodies were visited, and `pushed` every push so far.
   * Every used variable is done or pending, never both; each was pushed exactly once; the
   * done ones are closed under use; and the used inputs and constants are those mentioned by
   * `exp` or by a done body.
   */
  ghost predicate WorkInv(t: Tags, assigns: map<string, Value>, exp: Value, st: State,
                          pending: seq<string>, done: set<Value>, pushed: seq<string>) {
    && Scan(t, exp).Ok?
    && Scan(t, exp).value.vars <= st.assigns
    && AllAssigned(assigns, st.assigns)
    && Assigned(assigns, pending)
    && st.stack == Bodies(assigns, pending)
    && (forall v :: v in st.assigns <==> v in done || (v.Str? && v.s in pending))
    && (forall v :: v in done ==> v.Str? && v.s !in pending)
    && Distinct(pending)
    && Distinct(pushed)
    && (forall n :: Str(n) in st.assigns <==> n in pushed)
    && (forall v :: v in done ==>
          v.Str? && v.s in assigns && Scan(t, assigns[v.s]).Ok? &&
          Scan(t, assigns[v.s]).value.vars <= st.assigns)
    && st.inputs == ReachedInputs(t, assigns, exp, done)
    && st.consts == ReachedConsts(t, assigns, exp, done)
  }

  lemma ReachedEmpty(t: Tags, assigns: map<string, Value>, exp: Value)
    requires Scan(t, exp).Ok?
    ensures ReachedInputs(t, assigns, exp, {}) == Scan(t, exp).value.inputs
    ensures ReachedConsts(t, assigns, exp, {}) == Scan(t, exp).value.consts
  {
  }

  lemma ReachedAdd(t: Tags, assigns: map<string, Value>, exp: Value, done: set<Value>, v: Value)
    ensures ReachedInputs(t, assigns, exp, done + {v}) ==
      ReachedInputs(t, assigns, exp, done) + BodyUses(t, assigns, v).inputs
    ensures ReachedConsts(t, assigns, exp, done + {v}) ==
      ReachedConsts(t, assigns, exp, done) + BodyUses(t, assigns, v).consts
  {
  }

  /** The body of a used variable cannot be visited: no set covers `exp`. */
  lemma NoCoverAt(t: Tags, assigns: map<string, Value>, exp: Value, used: set<Value>, v: Value)
    requires BelowCovers(t, assigns, exp, used) && v in used
    requires !(v.Str? && v.s in assigns && Scan(t, assigns[v.s]).Ok? &&
               AllAssigned(assigns, Scan(t, assigns[v.s]).value.vars))
    ensures Uncoverable(t, assigns, exp)
  {
    forall vs | Covers(t, assigns, exp, vs)
      ensures v in vs
    {
    }
  }

  /** `exp` itself cannot be visited: no set covers it. */
  lemma NoCoverRoot(t: Tags, assigns: map<string, Value>, exp: Value)
    requires !(Scan(t, exp).Ok? && AllAssigned(assigns, Scan(t, exp).value.vars))
    ensures Uncoverable(t, assigns, exp)
  {
    forall vs | Covers(t, assigns, exp, vs)
      ensures AllAssigned(assigns, vs)
    {
    }
  }

  /** An expression with an unrecognised tag makes the pass fail. */
  lemma UnknownTagFails(t: Tags, assigns: map<string, Value>, tag: string, rest: seq<Value>)
    requires KindOf(t, tag) == UnknownNode
    ensures Uncoverable(t, assigns, Tup([Str(tag)] + rest))
  {
    ScanUnknown(t, tag, rest);
  }

  /** After the first visit of `exp`, the loop's invariant holds. */
  lemma WorkStart(t: Tags, assigns: map<string, Value>, exp: Value, st: State, added: seq<string>)
    requires Scan(t, exp).Ok? && AllAssigned(assigns, Scan(t, exp).value.vars)
    requires Follows(assigns, State({}, {}, {}, []), Scan(t, exp).value, st, added)
    ensures WorkInv(t, assigns, exp, st, added, {}, added)
    ensures BelowCovers(t, assigns, exp, st.assigns)
  {
    ReachedEmpty(t, assigns, exp);
    assert [] + Bodies(assigns, added) == Bodies(assigns, added);
  }

  lemma BodiesLast(assigns: map<string, Value>, pending: seq<string>)
    requires Assigned(assigns, pending) && |pending| > 0
    ensures Assigned(assigns, pending[..|pending| - 1])
    ensures Bodies(assigns, pending)[..|pending| - 1] == Bodies(assigns, pending[..|pending| - 1])
    ensures Bodies(assigns, pending)[|pending| - 1] == assigns[pending[|pending| - 1]]
  {
    var init := pending[..|pending| - 1];
    assert pending == init + [pending[|pending| - 1]];
    BodiesAppend(assigns, init, [pending[|pending| - 1]]);
  }

  /** The bookkeeping of done, pending and pushed names across one iteration. */
  lemma WorkStepNames(used: set<Value>, pending: seq<string>, done: set<Value>, pushed: seq<string>,
                      vars: set<Value>, added: seq<string>)
    requires |pending| > 0
    requires forall v :: v in used ==> v.Str?
    requires forall v :: v in used <==> v in done || (v.Str? && v.s in pending)
    requires forall v :: v in done ==> v.Str? && v.s !in pending
    requires Distinct(pending) && Distinct(pushed)
    requires forall n :: Str(n) in used <==> n in pushed
    requires FreshNames(added, used)
    requires forall n :: n in added <==> Str(n) in vars && Str(n) !in used
    requires forall v :: v in vars ==> v.Str?
    ensures var name := pending[|pending| - 1];
      var pending' := pending[..|pending| - 1] + added;
      && (forall v :: v in used + vars <==> v in done + {Str(name)} || (v.Str? && v.s in pending'))
      && (forall v :: v in done + {Str(name)} ==> v.Str? && v.s !in pending')
      && Distinct(pending')
      && Distinct(pushed + added)
      && (forall n :: Str(n) in used + vars <==> n in pushed + added)
  {
    var name := pending[|pending| - 1];
    var init := pending[..|pending| - 1];
    assert pending == init + [name];
    forall n | n in init ensures Str(n) in used && n != name {
      var i :| 0 <= i < |init| && init[i] == n;
      assert pending[i] == n;
    }
    FreshAppend(init, added, {}, used);
    FreshAppend(pushed, added, {}, used);
    forall v ensures v in used + vars <==> v in done + {Str(name)} || (v.Str? && v.s in init + added) {
      if v.Str? {
        assert v.s in init + added <==> v.s in init || v.s in added;
        assert v.s in pending <==> v.s in init || v.s == name;
      }
    }
    forall v | v in done + {Str(name)} ensures v.Str? && v.s !in init + added {
      assert v in used;
      assert v.s in init + added <==> v.s in init || v.s in added;
    }
    forall n ensures Str(n) in used + vars <==> n in pushed + added {
      assert n in pushed + added <==> n in pushed || n in added;
    }
  }

  /** The closure, minimality and reached-name facts across one iteration. */
  lemma WorkStepSets(t: Tags, assigns: map<string, Value>, exp: Value, st: State,
                     pending: seq<string>, done: set<Value>, st2: State, added: seq<string>)
    requires |pending| > 0 && pending[|pending| - 1] in assigns
    requires var body := assigns[pending[|pending| - 1]];
      Scan(t, body).Ok? && AllAssigned(assigns, Scan(t, body).value.vars)
    requires Str(pending[|pending| - 1]) in st.assigns
    requires AllAssigned(assigns, st.assigns)
    requires forall v :: v in done ==>
          v.Str? && v.s in assigns && Scan(t, assigns[v.s]).Ok? &&
          Scan(t, assigns[v.s]).value.vars <= st.assigns
    requires st.inputs == ReachedInputs(t, assigns, exp, done)
    requires st.consts == ReachedConsts(t, assigns, exp, done)
    requires BelowCovers(t, assigns, exp, st.assigns)
    requires var u := Scan(t, assigns[pending[|pending| - 1]]).value;
      st2.inputs == st.inputs + u.inputs && st2.assigns == st.assigns + u.vars &&
      st2.consts == st.consts + u.consts
    ensures var done' := done + {Str(pending[|pending| - 1])};
      && AllAssigned(assigns, st2.assigns)
      && (forall v :: v in done' ==>
            v.Str? && v.s in assigns && Scan(t, assigns[v.s]).Ok? &&
            Scan(t, assigns[v.s]).value.vars <= st2.assigns)
      && st2.inputs == ReachedInputs(t, assigns, exp, done')
      && st2.consts == ReachedConsts(t, assigns, exp, done')
      && BelowCovers(t, assigns, exp, st2.assigns)
  {
    var name := pending[|pending| - 1];
    ReachedAdd(t, assigns, exp, done, Str(name));
    AllAssignedUnion(assigns, st.assigns, Scan(t, assigns[name]).value.vars);
    forall vs | Covers(t, assigns, exp, vs)
      ensures st2.assigns <= vs
    {
      assert Str(name) in vs;
    }
  }

  /** One iteration: pop the last pending body, visit it, and the invariant holds again. */
  lemma WorkStep(t: Tags, assigns: map<string, Value>, exp: Value, st: State,
                 pending: seq<string>, done: set<Value>, pushed: seq<string>,
                 st2: State, added: seq<string>)
    requires WorkInv(t, assigns, exp, st, pending, done, pushed)
    requires BelowCovers(t, assigns, exp, st.assigns)
    requires |pending| > 0
    requires var body := assigns[pending[|pending| - 1]];
      && Scan(t, body).Ok? && AllAssigned(assigns, Scan(t, body).value.vars)
      && Follows(assigns, st.(stack := st.stack[..|st.stack| - 1]), Scan(t, body).value, st2, added)
    ensures WorkInv(t, assigns, exp, st2, pending[..|pending| - 1] + added,
                    done + {Str(pending[|pending| - 1])}, pushed + added)
    ensures BelowCovers(t, assigns, exp, st2.assigns)
  {
    var name := pending[|pending| - 1];
    var init := pending[..|pending| - 1];
    var u := Scan(t, assigns[name]).value;
    BodiesLast(assigns, pending);
    assert name in pending;
    WorkStepNames(st.assigns, pending, done, pushed, u.vars, added);
    WorkStepSets(t, assigns, exp, st, pending, done, st2, added);
    BodiesAppend(assigns, init, added);
  }

  /** When the stack is empty every used variable is done, and the used ones cover `exp`. */
  lemma WorkEnd(t: Tags, assigns: map<string, Value>, exp: Value, st: State,
                done: set<Value>, pushed: seq<string>)
    requires WorkInv(t, assigns, exp, st, [], done, pushed)
    ensures st.assigns == done
    ensures Covers(t, assigns, exp, st.assigns)
  {
  }

  lemma {:induction false} DistinctBound(s: seq<string>, keys: set<string>)
    requires Distinct(s)
    requires forall i :: 0 <= i < |s| ==> s[i] in keys
    ensures |s| <= |keys|
    decreases |s|
  {
    if s != [] {
      var x := s[|s| - 1];
      var init := s[..|s| - 1];
      forall i | 0 <= i < |init| ensures init[i] in keys - {x} {
        assert init[i] == s[i];
      }
      assert Distinct(init) by {
        forall i, j | 0 <= i < j < |init| ensures init[i] != init[j] {
          assert init[i] == s[i] && init[j] == s[j];
        }
      }
      DistinctBound(init, keys - {x});
    }
  }

  /** Each variable is pushed at most once, so there are no more pushes than assignments. */
  lemma PushedBound(assigns: map<string, Value>, used: set<Value>, pushed: seq<string>)
    requires Distinct(pushed)
    requires forall n :: Str(n) in used <==> n in pushed
    requires AllAssigned(assigns, used)
    ensures |pushed| <= |assigns.Keys|
  {
    forall i | 0 <= i < |pushed| ensures pushed[i] in assigns.Keys {
      assert pushed[i] in pushed;
      assert Str(pushed[i]) in used;
    }
    DistinctBound(pushed, assigns.Keys);
  }

  /**
   * One iteration of the worklist loop: pop the last pushed body and visit it. It fails only
   * when no set covers `exp`; otherwise the loop's invariant holds again, and either more
   * variables have been pushed or the stack is shorter.
   */
  method ReachStep(w: Walker, exp: Value, ghost pending: seq<string>, ghost done: set<Value>,
                   ghost pushed: seq<string>)
    returns (r: Result<(), Failure>, ghost pending': seq<string>, ghost done': set<Value>,
             ghost pushed': seq<string>)
    requires WorkInv(w.tags, w.assigns, exp, w.Snapshot(), pending, done, pushed)
    requires BelowCovers(w.tags, w.assigns, exp, w.usedAssigns)
    requires |w.workStack| > 0
    modifies w
    ensures r.Err? ==> Uncoverable(w.tags, w.assigns, exp)
    ensures r.Ok? ==>
      && WorkInv(w.tags, w.assigns, exp, w.Snapshot(), pending', done', pushed')
      && BelowCovers(w.tags, w.assigns, exp, w.usedAssigns)
      && |pushed'| <= |w.assigns.Keys|
      && |pending'| + |pushed| + 1 == |pending| + |pushed'|
      && (|pushed'| > |pushed| || (pushed' == pushed && |w.workStack| < old(|w.workStack|)))
  {
    ghost var st := w.Snapshot();
    BodiesLast(w.assigns, pending);
    var body := w.Pop();
    ghost var name := pending[|pending| - 1];
    ghost var ak;
    r, ak := w.Visit(body);
    StepMeaning(w.tags, w.assigns, st.(stack := st.stack[..|st.stack| - 1]), body);
    if r.Err? {
      NoCoverAt(w.tags, w.assigns, exp, st.assigns, Str(name));
      pending', done', pushed' := pending, done, pushed;
      return;
    }
    WorkStep(w.tags, w.assigns, exp, st, pending, done, pushed, w.Snapshot(), ak);
    pending', done', pushed' := pending[..|pending| - 1] + ak, done + {Str(name)}, pushed + ak;
    PushedBound(w.assigns, w.usedAssigns, pushed');
  }

  /**
   * The worklist loop of the pass: visit `exp`, then pop and visit bodies until the work
   * stack is empty. It fails exactly when no set of variables covers `exp`. Otherwise the used
   * variables are the least such set, each pushed once, and the used inputs and constants
   * are those mentioned by `exp` or by the body of a used variable. `pops` counts the bodies
   * the loop popped and visited: exactly one per push.
   */
  method Reach(tags: Tags, a: map<string, Value>, exp: Value)
    returns (r: Result<Uses, Failure>, ghost pushes: seq<string>, ghost pops: nat)
    ensures r.Err? ==> Uncoverable(tags, a, exp)
    ensures r.Ok? ==> Covers(tags, a, exp, r.value.vars) && BelowCovers(tags, a, exp, r.value.vars)
    ensures r.Ok? ==> r.value.inputs == ReachedInputs(tags, a, exp, r.value.vars)
    ensures r.Ok? ==> r.value.consts == ReachedConsts(tags, a, exp, r.value.vars)
    ensures r.Ok? ==>
      && Distinct(pushes)
      && (forall n :: n in pushes <==> Str(n) in r.value.vars)
      && |pushes| <= |a.Keys|
      && pops == |pushes|
  {
    var w := new Walker(tags, a);
    var r0;
    ghost var a0;
    r0, a0 := w.Visit(exp);
    StepMeaning(tags, a, State({}, {}, {}, []), exp);
    if r0.Err? {
      NoCoverRoot(tags, a, exp);
      return Err(r0.error), [], 0;
    }
    WorkStart(tags, a, exp, w.Snapshot(), a0);
    ghost var pending, done, pushed := a0, {}, a0;
    pops := 0;
    PushedBound(a, w.usedAssigns, pushed);
    while |w.workStack| > 0
      invariant w.tags == tags && w.assigns == a
      invariant WorkInv(tags, a, exp, w.Snapshot(), pending, done, pushed)
      invariant BelowCovers(tags, a, exp, w.usedAssigns)
      invariant |pushed| <= |a.Keys|
      invariant pops + |pending| == |pushed|
      decreases |a.Keys| - |pushed|, |w.workStack|
    {
      var rk;
      rk, pending, done, pushed := ReachStep(w, exp, pending, done, pushed);
      if rk.Err? {
        return Err(rk.error), [], pops;
      }
      pops := pops + 1;
    }
    WorkEnd(tags, a, exp, w.Snapshot(), done, pushed);
    r, pushes := Ok(Uses(w.usedInputs, w.usedAssigns, w.usedConsts)), pushed;
  }

  /** The pass's result: `(inputs, assigns)`, or `(inputs, assigns, consts)` when given. */
  datatype Removed =
    | Pair(inputs: ODict, assigns: ODict)
    | Triple(inputs: ODict, assigns: ODict, consts: ODict)

  /**
   * `dead_removal(exp, inputs, assigns, consts)`. It fails exactly when no set of variables
   * covers `exp`. Otherwise `reached` is the least such set, and each dictionary comes back
   * restricted to the reached inputs, variables and constants, in the original order: as a
   * pair when `consts` is absent and as a triple when it is given.
   */
  method DeadRemoval(tags: Tags, exp: Value, inputs: ODict, assigns: ODict, consts: Option<ODict>)
    returns (r: Result<Removed, Failure>, ghost reached: set<Value>)
    requires WellFormed(inputs) && WellFormed(assigns)
    requires consts.Some? ==> WellFormed(consts.value)
    ensures r.Err? ==> Uncoverable(tags, assigns.entries, exp)
    ensures r.Ok? ==> Covers(tags, assigns.entries, exp, reached)
    ensures r.Ok? ==> BelowCovers(tags, assigns.entries, exp, reached)
    ensures r.Ok? ==> r.value.inputs == Restrict(inputs, ReachedInputs(tags, assigns.entries, exp, reached))
    ensures r.Ok? ==> r.value.assigns == Restrict(assigns, reached)
    ensures r.Ok? ==> (r.value.Pair? <==> consts.None?)
    ensures r.Ok? && consts.Some? ==>
      r.value.consts == Restrict(consts.value, ReachedConsts(tags, assigns.entries, exp, reached))
  {
    var used;
    ghost var pushes;
    ghost var pops;
    used, pushes, pops := Reach(tags, assigns.entries, exp);
    if used.Err? {
      return Err(used.error), {};
    }
    reached := used.value.vars;
    var newInputs := FilterDict(inputs, used.value.inputs);
    var newAssigns := FilterDict(assigns, used.value.vars);
    if consts.None? {
      return Ok(Pair(newInputs, newAssigns)), reached;
    }
    var newConsts := FilterDict(consts.value, used.value.consts);
    r := Ok(Triple(newInputs, newAssigns, newConsts));
  }

}
