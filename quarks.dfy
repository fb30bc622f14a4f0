/** Quarks: interned attribute tokens and the zero-terminated quark vectors
    that hold the caption preference of the icon view. */
module Quarks {

  /** A GQuark: a number standing for an interned string. 0 is the null
      quark; it never stands for a string and ends a quark vector. */
  type Quark = nat

  /** A quark vector is usable only when it holds its terminating 0. */
  predicate Terminated(v: seq<Quark>)
  {
    exists k :: 0 <= k < |v| && v[k] == 0
  }

  /** The number of quarks in front of the first 0 of a terminated vector. */
  function TerminatorIndex(v: seq<Quark>): (n: nat)
    requires Terminated(v)
    ensures n < |v| && v[n] == 0
    ensures forall k :: 0 <= k < n ==> v[k] != 0
  {
    if v[0] == 0 then 0
    else
      assert Terminated(v[1..]) by {
        var k :| 0 <= k < |v| && v[k] == 0;
        assert v[1..][k - 1] == 0;
      }
      1 + TerminatorIndex(v[1..])
  }

  /** A vector of non-null quarks followed by one 0 has exactly that many
      quarks in front of its terminator. */
  lemma TerminatorIndexOfConverted(qs: seq<Quark>)
    requires forall i :: 0 <= i < |qs| ==> qs[i] != 0
    ensures Terminated(qs + [0]) && TerminatorIndex(qs + [0]) == |qs|
  {
    assert (qs + [0])[|qs|] == 0;
  }

  /** The process-wide string-to-quark table behind g_quark_from_string.
      Quarks are handed out from 1 upwards and never reused. */
  class QuarkRegistry {
    var quarks: map<string, Quark>
    var next: Quark

    ghost predicate Valid()
      reads this
    {
      && 1 <= next
      && (forall s :: s in quarks ==> 1 <= quarks[s] < next)
      && (forall s, t :: s in quarks && t in quarks && s != t ==> quarks[s] != quarks[t])
    }

    constructor ()
      ensures Valid() && quarks == map[]
    {
      quarks := map[];
      next := 1;
    }

    /** g_quark_from_string: the quark already interned for `s`, or a new one. */
    method FromString(s: string) returns (q: Quark)
      requires Valid()
      modifies this
      ensures Valid()
      ensures q != 0 && s in quarks && quarks[s] == q
      ensures s in old(quarks) ==> quarks == old(quarks)
      ensures s !in old(quarks) ==> quarks == old(quarks)[s := q] && q !in old(quarks).Values
    {
      if s in quarks {
        q := quarks[s];
      } else {
        q := next;
        quarks := quarks[s := q];
        next := next + 1;
      }
    }
  }

  /** Two strings interned in one registry get the same quark exactly when
      they are the same string (so a token equals the "none" quark only if
      it was the string "none"). */
  lemma SameQuarkIffSameString(registry: QuarkRegistry, s: string, t: string)
    requires registry.Valid() && s in registry.quarks && t in registry.quarks
    ensures registry.quarks[s] == registry.quarks[t] <==> s == t
  {
  }

  /** update_auto_strv_as_quarks: converts the string list read from the
      preference store into a fresh quark vector of |value| + 1 slots, the
      quarks in preference order followed by the 0 terminator. */
  method UpdateAutoStrvAsQuarks(registry: QuarkRegistry, value: seq<string>) returns (storage: array<Quark>)
    requires registry.Valid()
    modifies registry
    ensures registry.Valid() && fresh(storage)
    ensures storage.Length == |value| + 1
    ensures forall i :: 0 <= i < |value| ==> value[i] in registry.quarks && storage[i] == registry.quarks[value[i]]
    ensures storage[|value|] == 0
    ensures Terminated(storage[..]) && TerminatorIndex(storage[..]) == |value|
    ensures forall s :: s in old(registry.quarks) ==> s in registry.quarks && registry.quarks[s] == old(registry.quarks)[s]
    ensures forall s :: s in registry.quarks ==> s in old(registry.quarks) || s in value
  {
    storage := new Quark[|value| + 1];
    var i := 0;
    while i < |value|
      invariant 0 <= i <= |value|
      invariant registry.Valid()
      invariant forall k :: 0 <= k < i ==> value[k] in registry.quarks && storage[k] == registry.quarks[value[k]]
      invariant forall s :: s in old(registry.quarks) ==> s in registry.quarks && registry.quarks[s] == old(registry.quarks)[s]
      invariant forall s :: s in registry.quarks ==> s in old(registry.quarks) || s in value[..i]
    {
      var q := registry.FromString(value[i]);
      storage[i] := q;
      i := i + 1;
    }
    storage[i] := 0;
    assert value[..i] == value;
    assert storage[..] == storage[..|value|] + [0];
    TerminatorIndexOfConverted(storage[..|value|]);
  }

  /** quarkv_length: counts the quarks in front of the terminator. */
  method QuarkvLength(attributes: array<Quark>) returns (n: nat)
    requires Terminated(attributes[..])
    ensures n == TerminatorIndex(attributes[..])
    ensures attributes[n] == 0 && forall k :: 0 <= k < n ==> attributes[k] != 0
  {
    n := 0;
    while attributes[n] != 0
      invariant n <= TerminatorIndex(attributes[..])
      decreases TerminatorIndex(attributes[..]) - n
    {
      n := n + 1;
    }
  }
}
