/** Connection names: `name_ + "-%s#%d"` printed into a 64-byte array. */
module ConnectionName {
  const PRINT_MAX: nat := 63          // characters that fit next to the terminator
  const ID_LIMIT: nat := 0x8000_0000  // connection ids are positive ints

  function Digit(d: nat): char
    requires d < 10
  {
    '0' + (d as char)
  }

  function Decimal(n: nat): string
  {
    if n < 10 then [Digit(n)] else Decimal(n / 10) + [Digit(n % 10)]
  }

  function Printed(server: string, id: nat): string
  {
    var s := "-" + server + "#" + Decimal(id);
    if |s| <= PRINT_MAX then s else s[..PRINT_MAX]
  }

  function Name(server: string, id: nat): string
  {
    server + Printed(server, id)
  }

  // ----- reading a number back -----

  function DigitValue(c: char): int
  {
    (c as int) - ('0' as int)
  }

  function ReadDecimal(s: string): int
  {
    if s == "" then 0 else ReadDecimal(s[..|s| - 1]) * 10 + DigitValue(s[|s| - 1])
  }

  lemma {:induction false} DecimalReads(n: nat)
    ensures ReadDecimal(Decimal(n)) == n && forall i :: 0 <= i < |Decimal(n)| ==> '0' <= Decimal(n)[i] <= '9'
    decreases n
  {
    var s := Decimal(n);
    if n < 10 {
      assert s[..0] == "";
    } else {
      DecimalReads(n / 10);
      assert s[..|s| - 1] == Decimal(n / 10);
    }
  }

  /** The name of a connection on a server with a short name: the server's name twice, and the number
      of the connection in decimal. */
  lemma NameForm(server: string, id: nat) returns (digits: string)
    requires |server| <= 51 && id < ID_LIMIT
    ensures Name(server, id) == server + "-" + server + "#" + digits
    ensures ReadDecimal(digits) == id && forall i :: 0 <= i < |digits| ==> '0' <= digits[i] <= '9'
  {
    digits := Decimal(id);
    DecimalReads(id);
    assert Pow10(10) == 10_000_000_000;
    DecimalLengthBound(id, 10);
    assert Printed(server, id) == "-" + server + "#" + digits;
  }

  lemma DigitInjective(a: nat, b: nat)
    requires a < 10 && b < 10 && Digit(a) == Digit(b)
    ensures a == b
  {}

  lemma {:induction false} DecimalInjective(a: nat, b: nat)
    requires Decimal(a) == Decimal(b)
    ensures a == b
  {
    DecimalLength(a);
    DecimalLength(b);
    var s := Decimal(a);
    if a < 10 && b < 10 {
      assert s[0] == Digit(a) && s[0] == Digit(b);
      DigitInjective(a, b);
    } else if a >= 10 && b >= 10 {
      assert s[..|s| - 1] == Decimal(a / 10) && s[..|s| - 1] == Decimal(b / 10);
      assert s[|s| - 1] == Digit(a % 10) && s[|s| - 1] == Digit(b % 10);
      DecimalInjective(a / 10, b / 10);
      DigitInjective(a % 10, b % 10);
    } else if a >= 10 {
      DecimalLength(a / 10);
    } else {
      DecimalLength(b / 10);
    }
  }

  lemma {:induction false} DecimalLength(n: nat)
    ensures |Decimal(n)| >= 1
  {
    if n < 10 {
    } else {
      DecimalLength(n / 10);
    }
  }

  function Pow10(k: nat): nat
  {
    if k == 0 then 1 else 10 * Pow10(k - 1)
  }

  lemma {:induction false} DecimalLengthBound(n: nat, k: nat)
    requires k >= 1 && n < Pow10(k)
    ensures |Decimal(n)| <= k
  {
    assert Pow10(1) == 10;
    if n < 10 {
    } else {
      DecimalLengthBound(n / 10, k - 1);
    }
  }

  lemma {:induction false} DecimalLengthAtLeast(n: nat, k: nat)
    requires n >= Pow10(k)
    ensures |Decimal(n)| >= k + 1
  {
    if k == 0 {
      DecimalLength(n);
    } else {
      assert n / 10 >= Pow10(k - 1);
      assert n >= 10 by {
        Pow10Positive(k - 1);
      }
      DecimalLengthAtLeast(n / 10, k - 1);
    }
  }

  lemma {:induction false} Pow10Positive(k: nat)
    ensures Pow10(k) >= 1
  {
    if k == 0 {
    } else {
      Pow10Positive(k - 1);
    }
  }

  lemma ShortNamesDiffer(server: string, i: nat, j: nat)
    requires |server| <= 51 && i < ID_LIMIT && j < ID_LIMIT && Name(server, i) == Name(server, j)
    ensures i == j
  {
    assert Pow10(10) == 10_000_000_000;
    DecimalLengthBound(i, 10);
    DecimalLengthBound(j, 10);
    var front := server + ("-" + server + "#");
    assert Name(server, i) == front + Decimal(i) && Name(server, j) == front + Decimal(j);
    assert (front + Decimal(i))[|front|..] == Decimal(i);
    assert (front + Decimal(j))[|front|..] == Decimal(j);
    DecimalInjective(i, j);
  }

  lemma LongNamesCollide(server: string)
    requires |server| >= 52
    ensures Name(server, 1_000_000_000) == Name(server, 1_000_000_001)
  {
    var a, b := 1_000_000_000, 1_000_000_001;
    var front := "-" + server + "#";
    var shared := Decimal(100_000_000);
    assert Pow10(8) == 100_000_000;
    DecimalLengthAtLeast(100_000_000, 8);
    assert Decimal(a) == shared + [Digit(0)] && Decimal(b) == shared + [Digit(1)];
    assert |front + shared| >= PRINT_MAX;
    assert (front + Decimal(a))[..PRINT_MAX] == (front + shared)[..PRINT_MAX];
    assert (front + Decimal(b))[..PRINT_MAX] == (front + shared)[..PRINT_MAX];
  }

  /** All connections a server can ever number have distinct names if and only if the server's own
      name is at most 51 characters long. */
  lemma NamesDistinctIff(server: string)
    ensures (forall i: nat, j: nat :: 1 <= i < j < ID_LIMIT ==> Name(server, i) != Name(server, j)) <==> |server| <= 51
  {
    if |server| <= 51 {
      forall i: nat, j: nat | 1 <= i < j < ID_LIMIT
        ensures Name(server, i) != Name(server, j)
      {
        if Name(server, i) == Name(server, j) {
          ShortNamesDiffer(server, i, j);
        }
      }
    } else {
      LongNamesCollide(server);
    }
  }
}
