/**
 * The AwaitSignals behavior node: a rendezvous that completes once every
 * signal name it waits for has been seen on the inbound signal list of some
 * tick. A prototype is built from a template and holds names only; an
 * instance adds one received-flag per name and the name of the model it
 * drives.
 *
 * The pure functions at the top are the specification; the class below
 * models the node as the source keeps it (vectors grown by push_back and
 * updated in place) and proves its methods against those functions.
 */
module AwaitSignals {

  /** The parameter set an instance is specialised with. */
  type Params = map<string, string>

  /**
   * The parameter interpolator. Its definition is not part of this model,
   * so it enters every operation that uses it as an argument: the results
   * below hold for whichever interpolator the caller supplies.
   */
  type Interpolator = (string, Params) -> string

  // ---------------------------------------------------------------------
  // Specification
  // ---------------------------------------------------------------------

  /** The names of an instance: every prototype name run through `interpolate`. */
  function Interpolated(names: seq<string>, params: Params, interpolate: Interpolator): seq<string>
  {
    seq(|names|, i requires 0 <= i < |names| => interpolate(names[i], params))
  }

  /** `n` received-flags, none of them set. */
  function AllFalse(n: nat): seq<bool>
  {
    seq(n, _ => false)
  }

  /**
   * Completion as the node decides it: an empty name list is vacuously
   * complete; otherwise every flag the node holds must be set. The flags are
   * inspected, not the names, so a prototype (names but no flags) is complete.
   */
  predicate Complete(names: seq<string>, flags: seq<bool>)
  {
    |names| == 0 || forall j :: 0 <= j < |flags| ==> flags[j]
  }

  /**
   * The flags after one tick: the flag of every name that occurs in
   * `inbound` is set, every other flag (including any beyond the names)
   * keeps its value.
   */
  function Ticked(names: seq<string>, flags: seq<bool>, inbound: seq<string>): seq<bool>
    requires |names| <= |flags|
  {
    seq(|flags|, i requires 0 <= i < |flags| => flags[i] || (i < |names| && names[i] in inbound))
  }

  /** The flags after one tick per inbound list of `inbounds`, in that order. */
  function TickedAll(names: seq<string>, flags: seq<bool>, inbounds: seq<seq<string>>): (r: seq<bool>)
    requires |names| <= |flags|
    ensures |r| == |flags|
    decreases |inbounds|
  {
    if inbounds == [] then flags
    else TickedAll(names, Ticked(names, flags, inbounds[0]), inbounds[1..])
  }

  /** Every signal of every inbound list, in arrival order. */
  function Concat(inbounds: seq<seq<string>>): seq<string>
  {
    if inbounds == [] then [] else inbounds[0] + Concat(inbounds[1..])
  }

  /** `name` occurs on the inbound list of at least one of the ticks. */
  predicate Delivered(name: string, inbounds: seq<seq<string>>)
  {
    exists k :: 0 <= k < |inbounds| && name in inbounds[k]
  }

  // ---------------------------------------------------------------------
  // The node
  // ---------------------------------------------------------------------

  /** The outbound signal list a tick is handed by reference. */
  class OutboundSignals {
    var signals: seq<string>

    constructor ()
      ensures signals == []
    {
      signals := [];
    }
  }

  class AwaitSignalsNode {
    var signalNames: seq<string>
    var signalsReceived: seq<bool>
    var modelName: string

    /**
     * Builds a prototype from the template's signal-name field: the names
     * in template order and nothing else; no flags, no model yet.
     */
    constructor (field: seq<string>)
      ensures signalNames == field
      ensures signalsReceived == [] && modelName == ""
    {
      var names: seq<string> := [];
      var i := 0;
      while i < |field|
        invariant 0 <= i <= |field|
        invariant names == field[..i]
      {
        names := names + [field[i]];
        i := i + 1;
      }
      signalNames := names;
      signalsReceived := [];
      modelName := "";
    }

    /** A member-by-member copy of `other`. */
    constructor Copy(other: AwaitSignalsNode)
      ensures signalNames == other.signalNames
      ensures signalsReceived == other.signalsReceived
      ensures modelName == other.modelName
    {
      signalNames := other.signalNames;
      signalsReceived := other.signalsReceived;
      modelName := other.modelName;
    }

    /**
     * A new node bound to `name`: a copy of this one whose names are
     * interpolated with `params`, with one unset flag appended per name.
     * Only the names of the copy are cleared, so the copy keeps whatever
     * flags this node already held (none, for a prototype). This node is
     * left as it was.
     */
    method Instantiate(params: Params, name: string, interpolate: Interpolator)
      returns (b: AwaitSignalsNode)
      ensures fresh(b)
      ensures unchanged(this)
      ensures b.modelName == name
      ensures b.signalNames == Interpolated(signalNames, params, interpolate)
      ensures b.signalsReceived == signalsReceived + AllFalse(|signalNames|)
    {
      b := new AwaitSignalsNode.Copy(this);
      b.modelName := name;
      b.signalNames := [];
      var i := 0;
      while i < |signalNames|
        invariant 0 <= i <= |signalNames|
        invariant b.modelName == name
        invariant b.signalNames == Interpolated(signalNames[..i], params, interpolate)
        invariant b.signalsReceived == signalsReceived + AllFalse(i)
      {
        b.signalNames := b.signalNames + [interpolate(signalNames[i], params)];
        b.signalsReceived := b.signalsReceived + [false];
        i := i + 1;
      }
      assert signalNames[..i] == signalNames;
    }

    /**
     * One frame: sets the flag of every name that occurs in `inbound`.
     * The elapsed time is not read and the outbound list is not touched.
     * Every name's flag is indexed, so there must be at least as many flags
     * as names.
     */
    method Tick(dtSeconds: real, inbound: seq<string>, outbound: OutboundSignals)
      requires |signalNames| <= |signalsReceived|
      modifies this`signalsReceived
      ensures signalNames == old(signalNames) && modelName == old(modelName)
      ensures signalsReceived == Ticked(signalNames, old(signalsReceived), inbound)
      ensures unchanged(outbound)
    {
      var i := 0;
      while i < |signalNames|
        invariant 0 <= i <= |signalNames|
        invariant |signalsReceived| == |old(signalsReceived)|
        invariant forall j :: 0 <= j < i ==>
          signalsReceived[j] == (old(signalsReceived)[j] || signalNames[j] in inbound)
        invariant forall j :: i <= j < |signalsReceived| ==> signalsReceived[j] == old(signalsReceived)[j]
      {
        if !signalsReceived[i] {
          if signalNames[i] in inbound {
            signalsReceived := signalsReceived[i := true];
          }
        }
        i := i + 1;
      }
    }

    /** Whether the node is done: no names at all, or every flag set. */
    method IsComplete() returns (done: bool)
      ensures done == Complete(signalNames, signalsReceived)
    {
      if |signalNames| == 0 {
        return true;
      }
      var j := 0;
      while j < |signalsReceived|
        invariant 0 <= j <= |signalsReceived|
        invariant forall k :: 0 <= k < j ==> signalsReceived[k]
      {
        if !signalsReceived[j] {
          return false;
        }
        j := j + 1;
      }
      return true;
    }
  }

  // ---------------------------------------------------------------------
  // Properties
  // ---------------------------------------------------------------------

  /** Instantiating keeps the number of names. */
  lemma InterpolatedLength(names: seq<string>, params: Params, interpolate: Interpolator)
    ensures |Interpolated(names, params, interpolate)| == |names|
    ensures forall i :: 0 <= i < |names| ==>
      Interpolated(names, params, interpolate)[i] == interpolate(names[i], params)
  {
  }

  /**
   * Instantiating a prototype (no flags yet) gives index-aligned vectors
   * with every flag unset.
   */
  lemma PrototypeInstanceAligned(names: seq<string>, params: Params, interpolate: Interpolator)
    ensures |Interpolated(names, params, interpolate)| == |[] + AllFalse(|names|)|
    ensures forall j :: 0 <= j < |names| ==> !([] + AllFalse(|names|))[j]
  {
  }

  /** A fresh instance of a prototype is complete exactly when it waits for nothing. */
  lemma FreshInstanceComplete(names: seq<string>, params: Params, interpolate: Interpolator)
    ensures Complete(Interpolated(names, params, interpolate), [] + AllFalse(|names|)) <==> names == []
  {
    if names != [] {
      assert |Interpolated(names, params, interpolate)| > 0;
      assert !([] + AllFalse(|names|))[0];
    }
  }

  /** A prototype that was never instantiated has names but no flags, and is complete. */
  lemma PrototypeIsComplete(names: seq<string>)
    ensures Complete(names, [])
  {
  }

  /** A tick never clears a flag and keeps the number of flags. */
  lemma TickMonotone(names: seq<string>, flags: seq<bool>, inbound: seq<string>)
    requires |names| <= |flags|
    ensures |Ticked(names, flags, inbound)| == |flags|
    ensures forall j :: 0 <= j < |flags| && flags[j] ==> Ticked(names, flags, inbound)[j]
  {
  }

  /**
   * One inbound occurrence of a name sets the flag at every index holding
   * that name, so duplicate entries are satisfied together.
   */
  lemma TickSetsDuplicatesTogether(names: seq<string>, flags: seq<bool>, inbound: seq<string>, i: nat, j: nat)
    requires |names| <= |flags|
    requires i < |names| && j < |names| && names[i] == names[j]
    requires names[i] in inbound
    ensures Ticked(names, flags, inbound)[i] && Ticked(names, flags, inbound)[j]
  {
  }

  /** Two ticks in a row act as one tick on the two inbound lists together. */
  lemma TickCompose(names: seq<string>, flags: seq<bool>, a: seq<string>, b: seq<string>)
    requires |names| <= |flags|
    ensures Ticked(names, Ticked(names, flags, a), b) == Ticked(names, flags, a + b)
  {
    var lhs := Ticked(names, Ticked(names, flags, a), b);
    var rhs := Ticked(names, flags, a + b);
    assert |lhs| == |rhs|;
    forall i | 0 <= i < |lhs|
      ensures lhs[i] == rhs[i]
    {
      if i < |names| {
        assert names[i] in a + b <==> names[i] in a || names[i] in b;
      }
    }
  }

  /** The order of two ticks does not matter, and repeating a tick changes nothing. */
  lemma TicksCommute(names: seq<string>, flags: seq<bool>, a: seq<string>, b: seq<string>)
    requires |names| <= |flags|
    ensures Ticked(names, Ticked(names, flags, a), b) == Ticked(names, Ticked(names, flags, b), a)
    ensures Ticked(names, Ticked(names, flags, a), a) == Ticked(names, flags, a)
  {
    TickCompose(names, flags, a, b);
    TickCompose(names, flags, b, a);
    TickCompose(names, flags, a, a);
    var ab := Ticked(names, flags, a + b);
    var ba := Ticked(names, flags, b + a);
    forall i | 0 <= i < |flags|
      ensures ab[i] == ba[i]
    {
      if i < |names| {
        assert names[i] in a + b <==> names[i] in b + a;
      }
    }
    var aa := Ticked(names, flags, a + a);
    forall i | 0 <= i < |flags|
      ensures aa[i] == Ticked(names, flags, a)[i]
    {
      if i < |names| {
        assert names[i] in a + a <==> names[i] in a;
      }
    }
  }

  /** A name is among all the signals of a run of ticks iff some tick delivered it. */
  lemma {:induction false} InConcat(inbounds: seq<seq<string>>, name: string)
    ensures name in Concat(inbounds) <==> Delivered(name, inbounds)
  {
    if inbounds != [] {
      InConcat(inbounds[1..], name);
      if Delivered(name, inbounds[1..]) {
        var k :| 0 <= k < |inbounds[1..]| && name in inbounds[1..][k];
        assert name in inbounds[k + 1];
      }
      if Delivered(name, inbounds) && name !in inbounds[0] {
        var k :| 0 <= k < |inbounds| && name in inbounds[k];
        assert name in inbounds[1..][k - 1];
      }
    }
  }

  /** A run of ticks acts as one tick on all of its inbound signals. */
  lemma {:induction false} TickedAllIsOneTick(names: seq<string>, flags: seq<bool>, inbounds: seq<seq<string>>)
    requires |names| <= |flags|
    ensures TickedAll(names, flags, inbounds) == Ticked(names, flags, Concat(inbounds))
    decreases |inbounds|
  {
    if inbounds == [] {
      assert Ticked(names, flags, []) == flags;
    } else {
      var first := Ticked(names, flags, inbounds[0]);
      TickedAllIsOneTick(names, first, inbounds[1..]);
      TickCompose(names, flags, inbounds[0], Concat(inbounds[1..]));
    }
  }

  /**
   * After any run of ticks, the flag of name `i` is set iff it was set
   * before or some tick delivered the name; flags beyond the names keep
   * their value.
   */
  lemma TickedAllAt(names: seq<string>, flags: seq<bool>, inbounds: seq<seq<string>>, i: nat)
    requires |names| <= |flags| && i < |flags|
    ensures TickedAll(names, flags, inbounds)[i] ==
      (flags[i] || (i < |names| && Delivered(names[i], inbounds)))
  {
    TickedAllIsOneTick(names, flags, inbounds);
    if i < |names| {
      InConcat(inbounds, names[i]);
    }
  }

  /** Once complete, a node stays complete under any further ticks. */
  lemma StaysComplete(names: seq<string>, flags: seq<bool>, inbounds: seq<seq<string>>)
    requires |names| <= |flags|
    requires Complete(names, flags)
    ensures Complete(names, TickedAll(names, flags, inbounds))
  {
    if |names| > 0 {
      forall j | 0 <= j < |flags|
        ensures TickedAll(names, flags, inbounds)[j]
      {
        TickedAllAt(names, flags, inbounds, j);
      }
    }
  }

  /**
   * For aligned vectors, a run of ticks completes a node that waits for
   * something iff every name whose flag is unset is delivered by some tick.
   */
  lemma CompleteIffDelivered(names: seq<string>, flags: seq<bool>, inbounds: seq<seq<string>>)
    requires |names| == |flags| && |names| > 0
    ensures Complete(names, TickedAll(names, flags, inbounds)) <==>
      forall i :: 0 <= i < |names| ==> flags[i] || Delivered(names[i], inbounds)
  {
    forall i | 0 <= i < |names|
      ensures TickedAll(names, flags, inbounds)[i] == (flags[i] || Delivered(names[i], inbounds))
    {
      TickedAllAt(names, flags, inbounds, i);
    }
  }

  /**
   * A fresh instance of a prototype that waits for something completes
   * after a run of ticks iff every one of its names arrived on some tick.
   */
  lemma FreshInstanceCompletesIffAllArrived(names: seq<string>, inbounds: seq<seq<string>>)
    requires |names| > 0
    ensures Complete(names, TickedAll(names, [] + AllFalse(|names|), inbounds)) <==>
      forall i :: 0 <= i < |names| ==> Delivered(names[i], inbounds)
  {
    CompleteIffDelivered(names, [] + AllFalse(|names|), inbounds);
  }

  /**
   * The outcome of a run of ticks depends only on which inbound lists
   * arrived, not on the order in which they arrived.
   */
  lemma ArrivalOrderIrrelevant(names: seq<string>, flags: seq<bool>, xs: seq<seq<string>>, ys: seq<seq<string>>)
    requires |names| <= |flags|
    requires multiset(xs) == multiset(ys)
    ensures TickedAll(names, flags, xs) == TickedAll(names, flags, ys)
  {
    forall i | 0 <= i < |flags|
      ensures TickedAll(names, flags, xs)[i] == TickedAll(names, flags, ys)[i]
    {
      TickedAllAt(names, flags, xs, i);
      TickedAllAt(names, flags, ys, i);
      if i < |names| {
        DeliveredPermutation(names[i], xs, ys);
        DeliveredPermutation(names[i], ys, xs);
      }
    }
  }

  lemma DeliveredPermutation(name: string, xs: seq<seq<string>>, ys: seq<seq<string>>)
    requires multiset(xs) == multiset(ys)
    ensures Delivered(name, xs) ==> Delivered(name, ys)
  {
    if Delivered(name, xs) {
      var k :| 0 <= k < |xs| && name in xs[k];
      assert xs[k] in multiset(ys);
      var k' :| 0 <= k' < |ys| && ys[k'] == xs[k];
    }
  }

  /**
   * Instantiating a node that already holds flags keeps them and appends
   * new ones, so the flags outnumber the names; the trailing flag is then
   * never indexed by a tick, and no run of ticks can complete the node.
   */
  lemma ReinstantiatedNeverCompletes(newNames: seq<string>, oldFlags: seq<bool>, inbounds: seq<seq<string>>)
    requires |newNames| > 0 && |oldFlags| > 0
    ensures !Complete(newNames, TickedAll(newNames, oldFlags + AllFalse(|newNames|), inbounds))
  {
    var flags := oldFlags + AllFalse(|newNames|);
    var last := |flags| - 1;
    TickedAllAt(newNames, flags, inbounds, last);
    assert !flags[last];
  }

  /**
   * The rendezvous on "door_open" and "path_clear": the first tick sets one
   * flag only, the second completes the node.
   */
  method DoorScenario()
  {
    var proto := new AwaitSignalsNode(["door_open", "path_clear"]);
    var node := proto.Instantiate(map[], "robot", (s, p) => s);
    var outbound := new OutboundSignals();
    node.Tick(0.5, ["door_open"], outbound);
    assert node.signalsReceived == [true, false];
    assert !node.signalsReceived[1];
    var done := node.IsComplete();
    assert !done;
    node.Tick(0.5, ["path_clear"], outbound);
    assert node.signalsReceived == [true, true];
    done := node.IsComplete();
    assert done;
    assert outbound.signals == [];
  }
}
