/** 32-bit word and slot arithmetic of the lock-free ring.

A ring of `1 << order` bytes holds nodes of 64 bytes. Its head and tail are unsigned 32-bit words
that only ever grow by 64 and wrap silently, so a word stands for a node position modulo `LAP`.
*/
module RingArith {
  const NODE: nat := 64
  const WORD: nat := 0x1_0000_0000
  const LAP: nat := 0x400_0000  // positions a word can tell apart: WORD / NODE

  function Pow2(k: nat): nat
  {
    if k == 0 then 1 else 2 * Pow2(k - 1)
  }

  // Orders for which the ring holds at least one node and its byte size fits an unsigned int.
  predicate ValidOrder(order: nat)
  {
    6 <= order <= 31
  }

  function Slots(order: nat): (n: nat)
    requires ValidOrder(order)
    ensures n > 0
  {
    Pow2Positive(order - 6);
    Pow2(order - 6)
  }

  // The word that a head or tail counter holds at node position `pos`.
  function Word(pos: nat): nat
  {
    (NODE * pos) % WORD
  }

  // Unsigned 32-bit subtraction.
  function Minus(w: nat, r: nat): nat
    requires w < WORD && r < WORD
  {
    if w >= r then w - r else w + WORD - r
  }

  // The slot of node position `i` in a ring of `n` slots.
  function Slot(i: nat, n: nat): (k: nat)
    requires n > 0
    ensures k < n
  {
    i % n
  }

  // Bitwise and.
  function And(a: nat, b: nat): nat
  {
    if a == 0 || b == 0 then 0 else 2 * And(a / 2, b / 2) + (a % 2) * (b % 2)
  }

  // The slot a word points at: the byte offset `w & (size - 1)`, in nodes.
  function Index(w: nat, order: nat): (k: nat)
    requires ValidOrder(order)
    ensures k < Slots(order)
  {
    Pow2Positive(order);
    IndexIsMod(w, order);
    And(w, Pow2(order) - 1) / NODE
  }

  lemma HalfMod(w: nat, p: nat)
    requires p > 0
    ensures w % (2 * p) == 2 * ((w / 2) % p) + w % 2
  {
    var q, r := (w / 2) / p, (w / 2) % p;
    assert w == 2 * (w / 2) + w % 2 && w / 2 == q * p + r;
    assert w == q * (2 * p) + (2 * r + w % 2);
    DivModUnique(w, 2 * p, q, 2 * r + w % 2);
  }

  lemma HalfAnd(w: nat, p: nat)
    requires p > 0
    ensures And(w, 2 * p - 1) == 2 * And(w / 2, p - 1) + w % 2
  {
    assert (2 * p - 1) / 2 == p - 1 && (2 * p - 1) % 2 == 1;
  }

  /** Masking with a power of two minus one takes the remainder. */
  lemma {:induction false} MaskIsMod(w: nat, k: nat)
    ensures Pow2(k) > 0 && And(w, Pow2(k) - 1) == w % Pow2(k)
    decreases k
  {
    Pow2Positive(k);
    if k == 0 {
    } else {
      var p := Pow2(k - 1);
      assert p > 0 && And(w / 2, p - 1) == (w / 2) % p by { MaskIsMod(w / 2, k - 1); }
      HalfMod(w, p);
      HalfAnd(w, p);
    }
  }

  lemma IndexIsMod(w: nat, order: nat)
    requires ValidOrder(order)
    ensures Pow2(order) == NODE * Slots(order) && And(w, Pow2(order) - 1) == w % (NODE * Slots(order))
    ensures And(w, Pow2(order) - 1) / NODE < Slots(order)
  {
    MaskIsMod(w, order);
    Pow2Add(6, order - 6);
    assert Pow2(6) == NODE;
    ModBounds(w, NODE * Slots(order));
    DivBelow(w % (NODE * Slots(order)), Slots(order));
  }

  lemma {:induction false} Pow2Positive(k: nat)
    ensures Pow2(k) > 0
  {
    if k == 0 {
    } else {
      Pow2Positive(k - 1);
    }
  }

  lemma DoubleProduct(x: nat, y: nat)
    ensures 2 * (x * y) == (2 * x) * y
  {}

  lemma {:induction false} Pow2Add(a: nat, b: nat)
    ensures Pow2(a + b) == Pow2(a) * Pow2(b)
  {
    if a == 0 {
    } else {
      var x, y, z := Pow2(a - 1), Pow2(b), Pow2(a - 1 + b);
      assert z == x * y by { Pow2Add(a - 1, b); }
      assert Pow2(a) == 2 * x && Pow2(a + b) == 2 * z;
      DoubleProduct(x, y);
    }
  }

  lemma ModBounds(x: nat, m: nat)
    requires m > 0
    ensures x % m < m
  {}

  lemma DivBelow(x: nat, n: nat)
    requires x < NODE * n
    ensures x / NODE < n
  {}

  // The slot count divides the lap, which is why a wrapped word still finds its slot.
  lemma SlotsDivideLap(order: nat) returns (laps: nat)
    requires ValidOrder(order)
    ensures laps >= 2 && Slots(order) * laps == LAP
    ensures Slots(order) < LAP
  {
    laps := Pow2(32 - order);
    Pow2Add(order - 6, 32 - order);
    Pow2Add(13, 13);
    assert Pow2(13) == 8192;
    Pow2Positive(31 - order);
    assert laps == 2 * Pow2(31 - order);
    assert Slots(order) * laps == LAP;
    HalfAtMost(Slots(order), laps);
  }

  lemma HalfAtMost(n: nat, m: nat)
    requires n > 0 && m >= 2
    ensures n < n * m
  {
    assert n * m == n * (m - 2) + 2 * n;
  }

  lemma MulAtLeast(k: int, n: int)
    requires k >= 1 && n > 0
    ensures k * n >= n
  {
    assert k * n == (k - 1) * n + n;
  }

  lemma SmallMultiple(k: int, n: int)
    requires n > 0 && -n < k * n < n
    ensures k == 0
  {
    assert (-k) * n == -(k * n);
    if k >= 1 {
      MulAtLeast(k, n);
    } else if k <= -1 {
      MulAtLeast(-k, n);
    }
  }

  lemma DivModUnique(x: int, n: int, q: int, r: int)
    requires n > 0 && x == q * n + r && 0 <= r < n
    ensures x % n == r && x / n == q
  {
    assert (q - x / n) * n == x % n - r;
    SmallMultiple(q - x / n, n);
  }

  // A word is the byte offset of the position taken modulo the lap.
  lemma WordOfLap(pos: nat)
    ensures Word(pos) == NODE * (pos % LAP)
  {
    var q, r := pos / LAP, pos % LAP;
    assert NODE * pos == q * WORD + NODE * r;
    DivModUnique(NODE * pos, WORD, q, NODE * r);
  }

  lemma ModOfMod(x: nat, n: nat, m: nat)
    requires n > 0 && m > 0
    ensures n * m > 0 && (x % (n * m)) % n == x % n
  {
    var nm := n * m;
    assert nm > 0;
    var q, r := x / nm, x % nm;
    var q', r' := r / n, r % n;
    assert x == q * nm + r && r == q' * n + r';
    assert q * nm == (q * m) * n;
    assert x == (q * m + q') * n + r';
    DivModUnique(x, n, q * m + q', r');
  }

  // Scaling by the node size commutes with reduction.
  lemma ScaledMod(x: nat, n: nat)
    requires n > 0
    ensures NODE * n > 0 && (NODE * x) % (NODE * n) == NODE * (x % n)
  {
    var q, r := x / n, x % n;
    assert NODE * (q * n) == q * (NODE * n);
    DivModUnique(NODE * x, NODE * n, q, NODE * r);
  }

  /** A wrapped word points at the slot of the unbounded position it stands for. */
  lemma IndexOfWord(pos: nat, order: nat)
    requires ValidOrder(order)
    ensures Index(Word(pos), order) == Slot(pos, Slots(order))
  {
    var n := Slots(order);
    var laps := SlotsDivideLap(order);
    WordOfLap(pos);
    IndexIsMod(Word(pos), order);
    ScaledMod(pos % LAP, n);
    ModOfMod(pos, n, laps);
  }

  /** Two positions fewer than `n` apart never share a slot. */
  lemma SlotsDistinct(i: nat, j: nat, n: nat)
    requires n > 0 && i < j < i + n
    ensures Slot(i, n) != Slot(j, n)
  {
    var qi, qj := i / n, j / n;
    assert i == qi * n + i % n && j == qj * n + j % n;
    if i % n == j % n {
      assert (qj - qi) * n == j - i;
      SmallMultiple(qj - qi, n);
    }
  }

  lemma SlotWraps(i: nat, n: nat)
    requires n > 0
    ensures Slot(i + n, n) == Slot(i, n)
  {
    var q, r := i / n, i % n;
    assert i + n == (q + 1) * n + r;
    DivModUnique(i + n, n, q + 1, r);
  }

  /** Words tell apart positions that are less than a lap apart. */
  lemma WordsDistinct(i: nat, j: nat)
    requires i <= j < i + LAP
    ensures Word(i) == Word(j) <==> i == j
  {
    WordOfLap(i);
    WordOfLap(j);
    if i < j {
      SlotsDistinct(i, j, LAP);
    }
  }

  /** Unsigned subtraction of words is exact for positions less than a lap apart. */
  lemma MinusExact(i: nat, j: nat)
    requires i <= j < i + LAP
    ensures Minus(Word(j), Word(i)) == NODE * (j - i)
  {
    var qi, ri := i / LAP, i % LAP;
    var qj, rj := j / LAP, j % LAP;
    WordOfLap(i);
    WordOfLap(j);
    assert (qj - qi) * LAP == (j - i) + ri - rj;
    assert qj - qi == 0 || qj - qi == 1;
  }

  /** Without that bound, unsigned subtraction gives the distance modulo a lap. */
  lemma MinusWraps(i: nat, j: nat)
    requires i <= j
    ensures Minus(Word(j), Word(i)) == NODE * ((j - i) % LAP)
  {
    var qi, ri := i / LAP, i % LAP;
    var qj, rj := j / LAP, j % LAP;
    WordOfLap(i);
    WordOfLap(j);
    assert j - i == (qj - qi) * LAP + (rj - ri);
    if rj >= ri {
      DivModUnique(j - i, LAP, qj - qi, rj - ri);
    } else {
      DivModUnique(j - i, LAP, qj - qi - 1, rj - ri + LAP);
    }
  }

  // A word returns to its value after exactly one lap: the reuse that the pause bound rules out.
  lemma WordReturns(pos: nat)
    ensures Word(pos + LAP) == Word(pos)
  {
    WordOfLap(pos);
    WordOfLap(pos + LAP);
    SlotWraps(pos, LAP);
  }

  lemma WordStep(pos: nat)
    ensures (Word(pos) + NODE) % WORD == Word(pos + 1)
  {
    WordOfLap(pos);
    WordOfLap(pos + 1);
    var q, r := pos / LAP, pos % LAP;
    if r + 1 < LAP {
      DivModUnique(pos + 1, LAP, q, r + 1);
    } else {
      DivModUnique(pos + 1, LAP, q + 1, 0);
    }
  }
}
