/** What the operators and the value-level rules compute, told without the functions that both engines share
    (`src/eval.rs`, `src/vm.rs`, `src/value.rs`): the sharing of `Lang` makes the engines agree, and these laws say on
    what. */
module Operators {
  import opened Lang
  import Tree
  import Machine

  function Abs(n: int): nat { if n < 0 then -n else n }

  // ----- Integer division -----

  /** Division toward zero: the remainder is smaller than the divisor and has the sign of the dividend. */
  predicate Truncated(l: int, m: int, q: int, r: int) {
    l == q * m + r && Abs(r) < Abs(m) && (r > 0 ==> l > 0) && (r < 0 ==> l < 0)
  }

  /** There is one such pair. */
  lemma TruncatedOnce(l: int, m: int, q: int, r: int, p: int, s: int)
    requires m != 0 && Truncated(l, m, q, r) && Truncated(l, m, p, s)
    ensures q == p && r == s
  {
    assert (q - p) * m == s - r;
    assert Abs(s - r) < Abs(m);
    if q != p {
      AtLeast(q - p, m);
    }
  }

  lemma AbsProduct(k: int, m: int)
    ensures Abs(k * m) == Abs(k) * Abs(m)
  {
    if k >= 0 && m >= 0 {
    } else if k < 0 && m < 0 {
      assert k * m == (-k) * (-m);
    } else if k < 0 {
      assert k * m == -((-k) * m);
    } else {
      assert k * m == -(k * (-m));
    }
  }

  lemma AtLeast(k: int, m: int)
    requires k != 0
    ensures Abs(k * m) >= Abs(m)
  {
    AbsProduct(k, m);
    Grows(Abs(k), Abs(m));
  }

  lemma {:induction false} Grows(k: nat, m: nat)
    requires k > 0
    ensures k * m >= m
    decreases k
  {
    if k > 1 {
      Grows(k - 1, m);
      assert k * m == (k - 1) * m + m;
    }
  }

  lemma Divided(a: nat, b: nat)
    requires b > 0
    ensures a == (a / b) * b + a % b && 0 <= a % b < b && 0 <= a / b
  {
  }

  lemma TruncDivTruncates(l: int, m: int)
    requires m != 0
    ensures Truncated(l, m, TruncDiv(l, m), TruncRem(l, m))
  {
    var a, b := Abs(l), Abs(m);
    Divided(a, b);
    var k := a / b;
    assert TruncDiv(l, m) == if (l >= 0) == (m > 0) then k else -k;
    if (l >= 0) == (m > 0) {
      assert k * m == if m > 0 then k * b else -(k * b);
    } else {
      assert (-k) * m == if m > 0 then -(k * b) else k * b;
    }
  }

  /** The only quotient of machine integers that is none. */
  lemma QuotientFits(l: int, m: int)
    requires InI64(l) && InI64(m) && m != 0
    ensures InI64(TruncDiv(l, m)) <==> !(l == I64_MIN && m == -1)
    ensures InI64(TruncRem(l, m))
  {
    var q, r := TruncDiv(l, m), TruncRem(l, m);
    TruncDivTruncates(l, m);
    if m == 1 || m == -1 {
      assert r == 0;
    } else if q != 0 {
      assert Abs(q * m) <= Abs(l) by {
        if r == 0 {
        } else {
          SameSign(l, m, q, r);
        }
      }
      assert Abs(q * m) >= 2 * Abs(q) by {
        Doubles(q, m);
      }
    }
  }

  /** Taking the remainder off does not pass zero. */
  lemma SameSign(l: int, m: int, q: int, r: int)
    requires Truncated(l, m, q, r)
    ensures Abs(q * m) <= Abs(l)
  {
    if Abs(q * m) > Abs(l) {
      assert q != 0;
      AtLeast(q, m);
    }
  }

  lemma Doubles(q: int, m: int)
    requires Abs(m) >= 2
    ensures Abs(q * m) >= 2 * Abs(q)
  {
    AbsProduct(q, m);
    Twice(Abs(q), Abs(m));
  }

  lemma {:induction false} Twice(k: nat, n: nat)
    requires n >= 2
    ensures k * n >= 2 * k
    decreases k
  {
    if k > 0 {
      Twice(k - 1, n);
      assert k * n == (k - 1) * n + n;
    }
  }

  /** What `/` and `%` deliver together. */
  predicate Division(l: int, m: int, q: Outcome<Value>, r: Outcome<Value>, line: nat) {
    if m == 0 then q == r == Bad(Fault(ZeroDivision, line))
    else if l == I64_MIN && m == -1 then q == Bad(Fault(IntOverflow(OnDiv), line)) && r == Bad(Fault(IntOverflow(OnMod), line))
    else
      && q.Good? && q.value.VInt? && InI64(q.value.n)
      && r.Good? && r.value.VInt? && InI64(r.value.n)
      && Truncated(l, m, q.value.n, r.value.n)
  }

  /** In both engines, and for all machine integers: quotient and remainder truncate toward zero, and fail exactly for
      a zero divisor and for the one quotient that is out of range. */
  lemma DivisionTruncates(l: int, m: int, line: nat)
    requires InI64(l) && InI64(m)
    ensures Division(l, m, Tree.EvalBinop(BinOp.Div, VInt(l), VInt(m), line), Tree.EvalBinop(BinOp.Mod, VInt(l), VInt(m), line), line)
    ensures Division(l, m, Machine.ApplyBinary(Machine.OpCode.Div, VInt(l), VInt(m), line),
                     Machine.ApplyBinary(Machine.OpCode.Mod, VInt(l), VInt(m), line), line)
  {
    hide TruncDiv, TruncRem, Truncated;
    if m != 0 {
      TruncDivTruncates(l, m);
      QuotientFits(l, m);
    }
  }

  // ----- Machine integers -----

  /** The 64-bit two's complement number that stands for an integer. */
  function Wrapped(n: int): int { (n + 0x8000_0000_0000_0000) % 0x1_0000_0000_0000_0000 - 0x8000_0000_0000_0000 }

  /** Checked arithmetic succeeds exactly where wrapping would change nothing, and never changes anything itself. */
  lemma CheckedIffNoWrap(n: int, site: OverflowSite, line: nat)
    ensures Checked(n, site, line) == if Wrapped(n) == n then Good(VInt(n)) else Bad(Fault(IntOverflow(site), line))
  {
  }

  /** Sums, differences and products are exact in both engines, and an overflow is reported for the operation it is of. */
  lemma ArithmeticIsExact(l: int, m: int, line: nat)
    ensures forall op :: op in {BinOp.Add, BinOp.Sub, BinOp.Mul} ==>
              var exact := if op.Add? then l + m else if op.Sub? then l - m else l * m;
              var site := if op.Add? then OnAdd else if op.Sub? then OnSub else OnMul;
              var code := if op.Add? then Machine.OpCode.Add else if op.Sub? then Machine.OpCode.Sub else Machine.OpCode.Mul;
              var expected := if Wrapped(exact) == exact then Good(VInt(exact)) else Bad(Fault(IntOverflow(site), line));
              Tree.EvalBinop(op, VInt(l), VInt(m), line) == expected == Machine.ApplyBinary(code, VInt(l), VInt(m), line)
    ensures EvalUnary(Neg, VInt(l), line) == Machine.Negated(VInt(l), line)
         == if Wrapped(-l) == -l then Good(VInt(-l)) else Bad(Fault(IntOverflow(OnNegate), line))
  {
    hide Wrapped, Checked;
    CheckedIffNoWrap(l + m, OnAdd, line);
    CheckedIffNoWrap(l - m, OnSub, line);
    CheckedIffNoWrap(l * m, OnMul, line);
    CheckedIffNoWrap(-l, OnNegate, line);
  }

  predicate Says(r: Outcome<Value>, b: bool) { r == Good(VBool(b)) }

  /** Comparisons of integers, in both engines, are those of one order: less, equal and greater exclude each other and
      one of them holds, and each of the other three is the negation of one. */
  lemma ComparisonsOrder(l: int, m: int, line: nat)
    ensures Says(Tree.EvalBinop(BinOp.Lt, VInt(l), VInt(m), line), m - l > 0)
    ensures Says(Tree.EvalBinop(BinOp.Eq, VInt(l), VInt(m), line), m - l == 0)
    ensures Says(Tree.EvalBinop(BinOp.Gt, VInt(l), VInt(m), line), m - l < 0)
    ensures Says(Tree.EvalBinop(BinOp.LtEq, VInt(l), VInt(m), line), m - l >= 0)
    ensures Says(Tree.EvalBinop(BinOp.GtEq, VInt(l), VInt(m), line), m - l <= 0)
    ensures Says(Tree.EvalBinop(BinOp.NotEq, VInt(l), VInt(m), line), m - l != 0)
    ensures Says(Machine.ApplyBinary(Machine.OpCode.Lt, VInt(l), VInt(m), line), m - l > 0)
    ensures Says(Machine.ApplyBinary(Machine.OpCode.Eq, VInt(l), VInt(m), line), m - l == 0)
    ensures Says(Machine.ApplyBinary(Machine.OpCode.Gt, VInt(l), VInt(m), line), m - l < 0)
    ensures Says(Machine.ApplyBinary(Machine.OpCode.LtEq, VInt(l), VInt(m), line), m - l >= 0)
    ensures Says(Machine.ApplyBinary(Machine.OpCode.GtEq, VInt(l), VInt(m), line), m - l <= 0)
    ensures Says(Machine.ApplyBinary(Machine.OpCode.NotEq, VInt(l), VInt(m), line), m - l != 0)
  {
  }

  /** Joining two strings puts the second behind the first, and an error joins as its text. */
  lemma StringsJoin(s: string, t: string, kind: ErrorKind, at: nat, line: nat)
    ensures forall i :: 0 <= i < |s + t| ==> (s + t)[i] == if i < |s| then s[i] else t[i - |s|]
    ensures var joined := Good(VStr(s + t));
            && Tree.EvalBinop(BinOp.Add, VStr(s), VStr(t), line) == joined
            && Tree.EvalBinop(BinOp.Add, VStr(s), VError(kind, t, at), line) == joined
            && Tree.EvalBinop(BinOp.Add, VError(kind, s, at), VStr(t), line) == joined
            && Machine.ApplyBinary(Machine.OpCode.Add, VStr(s), VStr(t), line) == joined
            && Machine.ApplyBinary(Machine.OpCode.Add, VStr(s), VError(kind, t, at), line) == joined
            && Machine.ApplyBinary(Machine.OpCode.Add, VError(kind, s, at), VStr(t), line) == joined
  {
  }

  // ----- Truth -----

  /** The values that count as false, one of each kind. */
  lemma FalseValues(v: Value)
    ensures !Truthy(v) <==> v in {VBool(false), VNull, VInt(0), VStr(""), VList([])}
  {
  }

  // ----- Elements -----

  /** A list is read as if it stood twice in a row, with position 0 at the beginning of the second copy: from there to the
      right and to the left, and nowhere else. */
  lemma IndexReads(host: Host, es: seq<Value>, i: int, line: nat)
    ensures EvalIndex(host, VList(es), VInt(i), line) ==
            if -|es| <= i < |es| then Good((es + es)[|es| + i]) else Bad(Fault(ListIndexOutOfRange(i, |es|), line))
  {
  }

  lemma CharacterReads(host: Host, s: string, i: int, line: nat)
    ensures EvalIndex(host, VStr(s), VInt(i), line) ==
            if -|s| <= i < |s| then Good(VStr([(s + s)[|s| + i]])) else Bad(Fault(StrIndexOutOfRange(i, |s|), line))
  {
  }

  /** What was assigned is what is read back, and every other position is read as before. */
  lemma ReadAfterWrite(host: Host, es: seq<Value>, i: int, v: Value, j: int, line: nat)
    ensures var written := AssignIndex(VList(es), VInt(i), v, line);
            && (written.Good? <==> EvalIndex(host, VList(es), VInt(i), line).Good? && !Nested(v, MAX_VALUE_DEPTH))
            && (written.Good? ==>
                  && written.value.VList?
                  && EvalIndex(host, written.value, VInt(i), line) == Good(v)
                  && (j != i && j != i - |es| && j != i + |es| ==>
                        EvalIndex(host, written.value, VInt(j), line) == EvalIndex(host, VList(es), VInt(j), line)))
  {
    hide Nested, Depth;
    NestedIsDepth(v, MAX_VALUE_DEPTH);
  }

  /** Iterating over a value visits what indexing it from 0 on would read, and reads all of it. */
  lemma IterationIsIndexing(host: Host, v: Value, line: nat)
    ensures var items := IterItems(host, v, line);
            && (items.Good? <==> Len(v, line).Good? && Len(v, line).value.n <= host.maxCollection)
            && (items.Good? ==>
                  && Len(v, line) == Good(VInt(|items.value|))
                  && (forall i :: 0 <= i < |items.value| ==> EvalIndex(host, v, VInt(i), line) == Good(items.value[i]))
                  && EvalIndex(host, v, VInt(|items.value|), line).Bad?)
    ensures Len(v, line).Good? ==> Len(v, line).value.VInt?
  {
  }

  /** A caught error tells its kind, its text and its line. */
  lemma ErrorTells(host: Host, f: Fault, line: nat)
    ensures var e := ErrorValue(host, f);
            && EvalIndex(host, e, VStr("type"), line) == Good(VStr(host.kindText(KindOf(f.cause))))
            && EvalIndex(host, e, VStr("message"), line) == Good(VStr(host.message(f.cause)))
            && EvalIndex(host, e, VStr("line"), line) == Good(VInt(f.line))
  {
    assert "type"[0] != "message"[0] && "type"[0] != "line"[0] && "message"[0] != "line"[0];
  }

  // ----- Nesting -----

  /** There are `n` lists in the value, each an element of the one before. */
  predicate Nested(v: Value, n: nat) {
    n == 0 || (v.VList? && (n == 1 || exists i :: 0 <= i < |v.elements| && Nested(v.elements[i], n - 1)))
  }

  lemma {:induction false} MaxDepthIs(es: seq<Value>)
    ensures forall i :: 0 <= i < |es| ==> Depth(es[i]) <= MaxDepth(es)
    ensures es != [] ==> exists i :: 0 <= i < |es| && Depth(es[i]) == MaxDepth(es)
    ensures es == [] ==> MaxDepth(es) == 0
    decreases |es|
  {
    hide Depth;
    if es != [] {
      MaxDepthIs(es[1..]);
      assert forall i :: 0 < i < |es| ==> es[i] == es[1..][i - 1];
      if Depth(es[0]) <= MaxDepth(es[1..]) && |es| > 1 {
        var i :| 0 <= i < |es[1..]| && Depth(es[1..][i]) == MaxDepth(es[1..]);
        assert Depth(es[i + 1]) == MaxDepth(es);
      } else {
        assert Depth(es[0]) == MaxDepth(es);
      }
    }
  }

  /** The depth is the length of the longest such chain. */
  lemma {:induction false} NestedIsDepth(v: Value, n: nat)
    ensures Nested(v, n) <==> Depth(v) >= n
    decreases n
  {
    if n > 1 && v.VList? {
      MaxDepthIs(v.elements);
      forall i | 0 <= i < |v.elements|
        ensures Nested(v.elements[i], n - 1) <==> Depth(v.elements[i]) >= n - 1
      {
        NestedIsDepth(v.elements[i], n - 1);
      }
    }
  }

  /** A list literal takes an element exactly while the collection limit and the nesting limit allow it, and the
      collection limit is the one reported when both are passed. */
  lemma AppendAdmits(host: Host, list: seq<Value>, v: Value, line: nat)
    ensures AppendElement(host, list, v, line) ==
            if |list| >= host.maxCollection then Bad(Fault(CollectionLimit, line))
            else if Nested(v, 256) then Bad(Fault(ValueDepthLimit, line))
            else Good(list + [v])
  {
    hide Nested, Depth;
    NestedIsDepth(v, 256);
  }

  // ----- Printing -----

  /** What is printed grows at its end: a space and the next value. */
  lemma {:induction false} PrintedOneByOne(host: Host, vs: seq<Value>, v: Value)
    ensures Joined(host, vs + [v]) == if vs == [] then host.show(v) else Joined(host, vs) + " " + host.show(v)
    decreases |vs|
  {
    if vs == [] {
      assert vs + [v] == [v];
    } else {
      assert (vs + [v])[1..] == vs[1..] + [v] && (vs + [v])[0] == vs[0];
      PrintedOneByOne(host, vs[1..], v);
      if |vs| > 1 {
        var a, b, c := host.show(vs[0]), Joined(host, vs[1..]), host.show(v);
        assert a + " " + (b + " " + c) == (a + " " + b) + " " + c;
      }
    }
  }

  /** Faults name the type of a value, and different types by different names. */
  lemma TypesAreTold(v: Value)
    ensures TypeOf(v).IntName? <==> v.VInt?
    ensures TypeOf(v).BoolName? <==> v.VBool?
    ensures TypeOf(v).NullName? <==> v.VNull?
    ensures TypeOf(v).StrName? <==> v.VStr?
    ensures TypeOf(v).ListName? <==> v.VList?
    ensures TypeOf(v).ErrorName? <==> v.VError?
  {
  }

  // ----- Kinds of errors -----

  /** The causes of each kind. Everything that is a matter of types alone has the kind of a type error. */
  predicate OfKind(k: ErrorKind, c: Cause) {
    match k
    case NameKind => c.UndefinedName? || c.AssignUndefined?
    case ZeroDivisionKind => c.ZeroDivision?
    case IntOverflowKind => c.IntOverflow?
    case IndexKind => c.ListIndexOutOfRange? || c.StrIndexOutOfRange?
    case IterationKind => c.NotIterable?
    case BuiltinTypeKind => c.LenType?
    case OverflowKind => c.ValueDepthLimit?
    case CollectionLimitKind => c.CollectionLimit?
    case StepLimitKind => c.StepLimit?
    case ControlFlowKind => c.BreakOutsideLoop? || c.ContinueOutsideLoop?
    case InternalKind => c.Internal?
    case TypeKind =>
      || c.ArithmeticType? || c.ComparisonType? || c.UnaryType? || c.ListIndexType? || c.StrIndexType? || c.DictKeyType?
      || c.IndexReadUnsupported? || c.IndexAssignUnsupported?
  }

  /** Every cause has exactly one kind, and no `catch` sees exactly the two limits that end a run. */
  lemma KindsSortCauses(k: ErrorKind, c: Cause)
    ensures KindOf(c) == k <==> OfKind(k, c)
    ensures IsUncatchable(c) <==> c.StepLimit? || c.CollectionLimit?
  {
  }
}
