/** Fixed-width integers, little-endian byte strings and list helpers shared by every module. */
module Base {
  type u8 = x: int | 0 <= x < 0x100
  type u16 = x: int | 0 <= x < 0x1_0000
  type u32 = x: int | 0 <= x < 0x1_0000_0000
  type u64 = x: int | 0 <= x < 0x1_0000_0000_0000_0000

  datatype Option<+T> = None | Some(value: T)

  /** The exceptions of the assembler; `Crash` stands for a use the source leaves undefined. */
  datatype Error =
    | DuplicateLabel | DuplicateJob | InvalidOperation | LabelNotFound | UnknownAlignment
    | AcrossEop | TooBig | NoEof | PageOverflow | ReadBeyondData | BadOperand | TooManyBranches
    | InvalidAsm | Crash

  datatype Result<+T> = Ok(value: T) | Err(error: Error) {
    predicate IsFailure() { Err? }
    function PropagateFailure<U>(): Result<U>
      requires Err?
    {
      Err(error)
    }
    function Extract(): T
      requires Ok?
    {
      value
    }
  }

  function RoundUp4(n: nat): (r: nat)
    ensures n <= r < n + 4 && r % 4 == 0
  {
    (n + 3) / 4 * 4
  }

  // ---------- little-endian byte strings ----------

  function Pow256(n: nat): (p: nat)
    ensures p > 0
  {
    if n == 0 then 1 else 256 * Pow256(n - 1)
  }

  /** The `n` low bytes of `v`, least significant first. */
  function Bytes(v: nat, n: nat): (b: seq<u8>)
    ensures |b| == n
  {
    if n == 0 then [] else [v % 256] + Bytes(v / 256, n - 1)
  }

  /** The unsigned number a little-endian byte string denotes. */
  function Value(b: seq<u8>): nat {
    if b == [] then 0 else b[0] + 256 * Value(b[1..])
  }

  /** Reading back what was written yields the value truncated to the field. */
  lemma {:induction false} BytesValue(v: nat, n: nat)
    ensures Value(Bytes(v, n)) == v % Pow256(n)
  {
    if n > 0 {
      BytesValue(v / 256, n - 1);
      assert Bytes(v, n)[1..] == Bytes(v / 256, n - 1);
      ModSplit(v, Pow256(n - 1));
    }
  }

  lemma ModSplit(v: nat, p: nat)
    requires p > 0
    ensures v % (256 * p) == v % 256 + 256 * ((v / 256) % p)
  {
    var q, r := (v / 256) / p, (v / 256) % p;
    assert v / 256 == q * p + r;
    assert v == 256 * (q * p + r) + v % 256;
    assert v == (256 * p) * q + (256 * r + v % 256);
    DivModUnique(v, 256 * p, q, 256 * r + v % 256);
  }

  lemma DivModUnique(v: nat, d: nat, q: nat, r: nat)
    requires d > 0 && r < d && v == d * q + r
    ensures v / d == q && v % d == r
  {
    var q', r' := v / d, v % d;
    assert v == d * q' + r';
    if q' > q {
      assert d * q' >= d * (q + 1) by { MulLe(d, q + 1, q'); }
      assert false;
    }
    if q' < q {
      assert d * q >= d * (q' + 1) by { MulLe(d, q' + 1, q); }
      assert false;
    }
  }

  lemma SmallMod(v: nat, p: nat)
    requires v < p
    ensures v % p == v
  {}

  lemma MulLe(d: nat, a: nat, b: nat)
    requires a <= b
    ensures d * a <= d * b
  {}

  lemma {:induction false} ValueBytes(b: seq<u8>)
    ensures Bytes(Value(b), |b|) == b
    ensures Value(b) < Pow256(|b|)
  {
    if b != [] {
      ValueBytes(b[1..]);
      assert Value(b) / 256 == Value(b[1..]) && Value(b) % 256 == b[0];
    }
  }

  /** Splitting a remainder at a divisor. */
  lemma SplitMod(v: nat, a: nat, b: nat)
    requires a > 0 && b > 0
    ensures a * b > 0 && v % (a * b) == v % a + a * (v / a % b)
  {
    var q, r := v / a, v % a;
    var q2, r2 := q / b, q % b;
    assert v == a * q + r && q == b * q2 + r2;
    assert v == a * b * q2 + (a * r2 + r) by {
      assert a * q == a * (b * q2) + a * r2;
      assert a * (b * q2) == a * b * q2;
    }
    assert a * r2 + r < a * b by { MulLe(a, r2, b - 1); }
    DivModUnique(v, a * b, q2, a * r2 + r);
  }

  lemma BytesStep(v: nat, n: nat)
    requires n > 0
    ensures Bytes(v, n) == [v % 256] + Bytes(v / 256, n - 1)
  {}

  lemma ShiftTwice(w: nat)
    ensures w / 256 / 256 == w / 0x1_0000 && w / 256 / 256 / 256 == w / 0x100_0000
      && w / 0x1_0000 / 256 == w / 0x100_0000
  {}

  lemma FourBytes(v: nat)
    ensures Bytes(v, 4) == [v % 256, v / 256 % 256, v / 0x1_0000 % 256, v / 0x100_0000 % 256]
  {
    hide Bytes;
    BytesStep(v, 4);
    BytesStep(v / 256, 3);
    BytesStep(v / 256 / 256, 2);
    BytesStep(v / 256 / 256 / 256, 1);
    ShiftTwice(v);
  }

  lemma Pow256Word()
    ensures Pow256(1) == 0x100 && Pow256(2) == 0x1_0000 && Pow256(3) == 0x100_0000 && Pow256(4) == 0x1_0000_0000
  {
    assert Pow256(2) == 256 * Pow256(1);
    assert Pow256(3) == 256 * Pow256(2);
    assert Pow256(4) == 256 * Pow256(3);
  }

  /** A word and its four bytes (the shape `section_writer` uses). */
  lemma WordBytes(w: u32)
    ensures Bytes(w, 4) == [w % 256, w / 256 % 256, w / 0x1_0000 % 256, w / 0x100_0000 % 256]
    ensures Value(Bytes(w, 4)) == w
  {
    hide Bytes, Value, Pow256;
    FourBytes(w);
    Pow256Word();
    BytesValue(w, 4);
  }

  // ---------- lists ----------

  ghost predicate NoDup<T>(s: seq<T>) {
    forall i, j :: 0 <= i < j < |s| ==> s[i] != s[j]
  }

  function Concat<T>(ss: seq<seq<T>>): seq<T> {
    if ss == [] then [] else ss[0] + Concat(ss[1..])
  }

  lemma Assoc<T>(a: seq<T>, b: seq<T>, c: seq<T>)
    ensures a + b + c == a + (b + c)
  {}

  lemma {:induction false} ConcatSnoc<T>(ss: seq<seq<T>>, s: seq<T>)
    ensures Concat(ss + [s]) == Concat(ss) + s
  {
    if ss == [] {
      assert [s][1..] == [];
    } else {
      assert (ss + [s])[1..] == ss[1..] + [s];
      ConcatSnoc(ss[1..], s);
    }
  }

  lemma {:induction false} ConcatAppend<T>(a: seq<seq<T>>, b: seq<seq<T>>)
    ensures Concat(a + b) == Concat(a) + Concat(b)
  {
    if a == [] {
      assert a + b == b;
    } else {
      assert (a + b)[1..] == a[1..] + b;
      ConcatAppend(a[1..], b);
    }
  }

  /** Keeps the first occurrence of every element, in order. */
  function Dedup<T(==,!new)>(s: seq<T>): (r: seq<T>)
    ensures NoDup(r)
    ensures forall x :: x in r <==> x in s
    ensures |r| <= |s|
  {
    if s == [] then [] else
      var x := s[|s| - 1];
      var d := Dedup(s[..|s| - 1]);
      assert s == s[..|s| - 1] + [x];
      if x in d then d else d + [x]
  }

  /** A list that has no duplicates survives as a prefix. */
  lemma {:induction false} DedupKeepsPrefix<T(!new)>(a: seq<T>, b: seq<T>)
    requires NoDup(a)
    ensures a <= Dedup(a + b)
    decreases |a| + |b|
  {
    if b != [] {
      assert (a + b)[..|a + b| - 1] == a + b[..|b| - 1];
      DedupKeepsPrefix(a, b[..|b| - 1]);
    } else if a != [] {
      assert a + b == a;
      var a' := a[..|a| - 1];
      DedupKeepsPrefix(a', []);
      assert a' + [] == a';
      DedupLength(a');
      assert a[|a| - 1] !in a';
    }
  }

  lemma {:induction false} DedupLength<T(!new)>(a: seq<T>)
    requires NoDup(a)
    ensures Dedup(a) == a
  {
    if a != [] {
      DedupLength(a[..|a| - 1]);
      assert a[|a| - 1] !in a[..|a| - 1];
    }
  }

  /** `Dedup` only ever appends: the head of the list stays the head. */
  lemma {:induction false} DedupHead<T(!new)>(s: seq<T>)
    requires s != []
    ensures Dedup(s) != [] && Dedup(s)[0] == s[0]
  {
    if |s| > 1 {
      DedupHead(s[..|s| - 1]);
    }
  }

  lemma {:induction false} DistinctCount<T>(s: seq<T>, x: T)
    requires NoDup(s)
    ensures multiset(s)[x] == if x in s then 1 else 0
  {
    if s != [] {
      var t := s[..|s| - 1];
      assert s == t + [s[|s| - 1]];
      DistinctCount(t, x);
      if s[|s| - 1] == x {
        assert x !in t;
      }
    }
  }

  lemma CountsDistinct<T(!new)>(s: seq<T>)
    ensures NoDup(s) <==> forall x :: multiset(s)[x] <= 1
  {
    if NoDup(s) {
      forall x ensures multiset(s)[x] <= 1 {
        DistinctCount(s, x);
      }
    } else {
      var i, k :| 0 <= i < k < |s| && s[i] == s[k];
      assert s == s[..k] + [s[k]] + s[k + 1..];
      assert s[i] in s[..k];
      assert multiset(s) == multiset(s[..k]) + multiset([s[k]]) + multiset(s[k + 1..]);
      assert multiset(s)[s[k]] >= 2;
    }
  }

  /** A duplicate-free list over a finite set is no longer than the set. */
  lemma {:induction false} NoDupBound<T(!new)>(s: seq<T>, S: set<T>)
    requires NoDup(s) && forall x :: x in s ==> x in S
    ensures |s| <= |S|
  {
    if s != [] {
      var x := s[|s| - 1];
      assert x in s;
      NoDupBound(s[..|s| - 1], S - {x});
    }
  }
}
