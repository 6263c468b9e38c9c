/**
 * The parser's output: a vector of (tag, operand) pairs in postfix order,
 * the label names newLabel hands out, and the views of a code vector that
 * the label and scope properties talk about. A small stack machine gives
 * the expression part of the code a meaning, so that the postfix order can
 * be checked against the value of the expression it was compiled from.
 */
module Ir {
  import opened Decimal

  /** One IR entry; the operand is "" for PLUS, MINUS, TIMES and DIV. */
  datatype Instr = Instr(tag: string, item: string)

  /** newLabel's names: "L" followed by the decimal counter. */
  function LabelName(n: nat): string {
    "L" + NatToString(n)
  }

  /** Different counter values give different label names. */
  lemma LabelNameInjective(a: nat, b: nat)
    requires LabelName(a) == LabelName(b)
    ensures a == b
  {
    assert LabelName(a)[1..] == NatToString(a);
    assert LabelName(b)[1..] == NatToString(b);
    NatToStringInjective(a, b);
  }

  /** Reads a counter value back from a label name; -1 for text that is not one. */
  function LabelNumber(l: string): int {
    if |l| > 1 && l[0] == 'L' && AllDigits(l[1..]) then Value(l[1..]) else -1
  }

  lemma LabelNumberOfName(n: nat)
    ensures LabelNumber(LabelName(n)) == n
  {
    assert LabelName(n)[1..] == NatToString(n);
    ValueOfNatToString(n);
  }

  predicate Distinct<T(==)>(s: seq<T>) {
    forall i, j :: 0 <= i < j < |s| ==> s[i] != s[j]
  }

  /** Two steps that each append to a sequence append their concatenation. */
  lemma Chain<T>(s0: seq<T>, s1: seq<T>, s2: seq<T>, u: seq<T>, v: seq<T>)
    requires s1 == s0 + u && s2 == s1 + v
    ensures s2 == s0 + (u + v)
  {
  }

  /** Appending a concatenation is appending its two parts in turn. */
  lemma Assoc<T>(s: seq<T>, a: seq<T>, b: seq<T>)
    ensures s + (a + b) == s + a + b
  {
  }

  /** The elements of a sequence, as a set. */
  function Elements<T>(s: seq<T>): set<T> {
    set x | x in s
  }

  lemma ElementsAppend<T>(a: seq<T>, b: seq<T>)
    ensures Elements(a + b) == Elements(a) + Elements(b)
  {
  }

  /** Two duplicate-free sequences with nothing in common concatenate to a duplicate-free one. */
  lemma DistinctAppend<T>(a: seq<T>, b: seq<T>)
    requires Distinct(a) && Distinct(b)
    requires Elements(a) !! Elements(b)
    ensures Distinct(a + b)
  {
    forall i, j | 0 <= i < j < |a + b|
      ensures (a + b)[i] != (a + b)[j]
    {
      if i < |a| && j >= |a| {
        assert (a + b)[i] in Elements(a) && (a + b)[j] in Elements(b);
      }
    }
  }

  /** The concatenation of f's results over xs, in order. */
  function MapConcat<A, B>(f: A -> seq<B>, xs: seq<A>): seq<B> {
    if xs == [] then [] else MapConcat(f, xs[..|xs| - 1]) + f(xs[|xs| - 1])
  }

  lemma {:induction false} MapConcatAppend<A, B>(f: A -> seq<B>, xs: seq<A>, ys: seq<A>)
    ensures MapConcat(f, xs + ys) == MapConcat(f, xs) + MapConcat(f, ys)
    decreases |ys|
  {
    if ys == [] {
      assert xs + ys == xs;
    } else {
      var ys' := ys[..|ys| - 1];
      assert (xs + ys)[..|xs + ys| - 1] == xs + ys';
      assert (xs + ys)[|xs + ys| - 1] == ys[|ys| - 1];
      MapConcatAppend(f, xs, ys');
    }
  }

  lemma MapConcatSnoc<A, B>(f: A -> seq<B>, xs: seq<A>, x: A)
    ensures MapConcat(f, xs + [x]) == MapConcat(f, xs) + f(x)
  {
    assert (xs + [x])[..|xs|] == xs;
  }

  /** The operands of the LABEL entries, in order. */
  function DefinedLabels(code: seq<Instr>): seq<string> {
    if code == [] then []
    else (if code[0].tag == "LABEL" then [code[0].item] else []) + DefinedLabels(code[1..])
  }

  /** The operands of the BZ and BR entries. */
  function JumpTargets(code: seq<Instr>): set<string> {
    if code == [] then {}
    else (if code[0].tag == "BZ" || code[0].tag == "BR" then {code[0].item} else {}) + JumpTargets(code[1..])
  }

  /** The operands of the EVAL entries: the variables the code reads. */
  function Evaluated(code: seq<Instr>): set<string> {
    if code == [] then {}
    else (if code[0].tag == "EVAL" then {code[0].item} else {}) + Evaluated(code[1..])
  }

  /** Every label is defined exactly once and every jump goes to a defined label. */
  predicate Resolved(code: seq<Instr>) {
    && Distinct(DefinedLabels(code))
    && forall t :: t in JumpTargets(code) ==> t in DefinedLabels(code)
  }

  lemma {:induction false} ViewsAppend(a: seq<Instr>, b: seq<Instr>)
    ensures DefinedLabels(a + b) == DefinedLabels(a) + DefinedLabels(b)
    ensures JumpTargets(a + b) == JumpTargets(a) + JumpTargets(b)
    ensures Evaluated(a + b) == Evaluated(a) + Evaluated(b)
    decreases |a|
  {
    if a == [] {
      assert a + b == b;
    } else {
      assert (a + b)[1..] == a[1..] + b;
      ViewsAppend(a[1..], b);
    }
  }

  lemma ViewsAppend3(a: seq<Instr>, b: seq<Instr>, c: seq<Instr>)
    ensures DefinedLabels(a + b + c) == DefinedLabels(a) + DefinedLabels(b) + DefinedLabels(c)
    ensures JumpTargets(a + b + c) == JumpTargets(a) + JumpTargets(b) + JumpTargets(c)
    ensures Evaluated(a + b + c) == Evaluated(a) + Evaluated(b) + Evaluated(c)
  {
    ViewsAppend(a, b);
    ViewsAppend(a + b, c);
  }

  lemma ViewsSingle(i: Instr)
    ensures DefinedLabels([i]) == if i.tag == "LABEL" then [i.item] else []
    ensures JumpTargets([i]) == if i.tag == "BZ" || i.tag == "BR" then {i.item} else {}
    ensures Evaluated([i]) == if i.tag == "EVAL" then {i.item} else {}
  {
    assert [i][1..] == [];
  }

  /** A LABEL entry defines its label and does nothing else. */
  lemma LabelViews(l: string)
    ensures DefinedLabels([Instr("LABEL", l)]) == [l]
    ensures JumpTargets([Instr("LABEL", l)]) == {} && Evaluated([Instr("LABEL", l)]) == {}
  {
    ViewsSingle(Instr("LABEL", l));
  }

  /** A BZ or BR entry jumps to its label and does nothing else. */
  lemma JumpViews(tag: string, l: string)
    requires tag == "BZ" || tag == "BR"
    ensures DefinedLabels([Instr(tag, l)]) == []
    ensures JumpTargets([Instr(tag, l)]) == {l} && Evaluated([Instr(tag, l)]) == {}
  {
    ViewsSingle(Instr(tag, l));
  }

  // ---- A stack machine for the expression part of the IR ----

  /** C++ integer division: the quotient is truncated toward zero. */
  function TruncDiv(a: int, b: int): int
    requires b != 0
  {
    var q := (if a < 0 then -a else a) / (if b < 0 then -b else b);
    if (a < 0) == (b < 0) then q else -q
  }

  /** One entry run against an environment and a stack; None when it is stuck. */
  function Step(i: Instr, env: map<string, int>, st: seq<int>): Option<seq<int>> {
    if i.tag == "EVAL" then
      if i.item in env then Some(st + [env[i.item]]) else None
    else if i.tag == "PUSH" then
      match ParseInt(i.item)
      case Some(v) => Some(st + [v])
      case None => None
    else if (i.tag == "PLUS" || i.tag == "MINUS" || i.tag == "TIMES" || i.tag == "DIV") && |st| >= 2 then
      var a, b := st[|st| - 2], st[|st| - 1];
      var rest := st[..|st| - 2];
      if i.tag == "PLUS" then Some(rest + [a + b])
      else if i.tag == "MINUS" then Some(rest + [a - b])
      else if i.tag == "TIMES" then Some(rest + [a * b])
      else if b == 0 then None
      else Some(rest + [TruncDiv(a, b)])
    else None
  }

  function Run(code: seq<Instr>, env: map<string, int>, st: seq<int>): Option<seq<int>> {
    if code == [] then Some(st)
    else match Step(code[0], env, st)
      case None => None
      case Some(st') => Run(code[1..], env, st')
  }

  /** Running two pieces of code one after the other is running their concatenation. */
  lemma {:induction false} RunAppend(a: seq<Instr>, b: seq<Instr>, env: map<string, int>, st: seq<int>)
    ensures Run(a + b, env, st) == match Run(a, env, st) { case None => None case Some(st') => Run(b, env, st') }
    decreases |a|
  {
    if a == [] {
      assert a + b == b;
    } else {
      assert (a + b)[0] == a[0] && (a + b)[1..] == a[1..] + b;
      match Step(a[0], env, st)
      case None =>
      case Some(st') => RunAppend(a[1..], b, env, st');
    }
  }
}
