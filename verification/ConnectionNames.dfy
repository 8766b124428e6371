/** The names under which TcpServer files its connections: "-ip#id" printed into 64 bytes. */
module ConnectionNames {
  const IDS: nat := 0x1_0000_0000      // nextConnId_ is a uint32_t
  const BUFFER_SIZE: nat := 64
  const LONGEST_ADDRESS: nat := 50

  function Digit(d: nat): char
    requires d < 10
  {
    '0' + d as char
  }

  /** Decimal digits, most significant first. */
  function Digits(n: nat): (s: string)
    ensures |s| > 0 && s[0] != '-'
  {
    if n < 10 then [Digit(n)] else Digits(n / 10) + [Digit(n % 10)]
  }

  /** %d prints the uint32_t as an int. */
  function Printed(id: nat): string
    requires id < IDS
  {
    if id < IDS / 2 then Digits(id) else "-" + Digits(IDS - id)
  }

  /** snprintf into buf: at most 63 characters survive. */
  function Suffix(ip: string, id: nat): string
    requires id < IDS
  {
    var full := "-" + ip + "#" + Printed(id);
    if |full| < BUFFER_SIZE then full else full[..BUFFER_SIZE - 1]
  }

  function Name(server: string, ip: string, id: nat): string
    requires id < IDS
  {
    server + Suffix(ip, id)
  }

  function Pow10(k: nat): nat {
    if k == 0 then 1 else 10 * Pow10(k - 1)
  }

  /** n has exactly k digits when 10^(k-1) <= n < 10^k. */
  lemma {:induction false} DigitsLength(n: nat, k: nat)
    requires k > 0
    ensures n < Pow10(k) ==> |Digits(n)| <= k
    ensures Pow10(k - 1) <= n ==> |Digits(n)| >= k
  {
    if n >= 10 && k > 1 {
      DigitsLength(n / 10, k - 1);
    }
    if k == 1 {
      assert Pow10(1) == 10;
    }
    if n < 10 && k > 1 {
      AtLeastTen(k - 1);
    }
  }

  lemma {:induction false} AtLeastTen(k: nat)
    requires k > 0
    ensures Pow10(k) >= 10
  {
    if k > 1 { AtLeastTen(k - 1); }
  }

  lemma {:induction false} DigitsInjective(m: nat, n: nat)
    requires Digits(m) == Digits(n)
    ensures m == n
    decreases m
  {
    var s, t := Digits(m), Digits(n);
    assert s[|s| - 1] == Digit(m % 10) && t[|t| - 1] == Digit(n % 10);
    if m >= 10 && n >= 10 {
      assert s[..|s| - 1] == Digits(m / 10) && t[..|t| - 1] == Digits(n / 10);
      DigitsInjective(m / 10, n / 10);
    }
  }

  lemma PrintedInjective(i: nat, j: nat)
    requires i < IDS && j < IDS && Printed(i) == Printed(j)
    ensures i == j
  {
    assert Printed(i)[0] == '-' <==> i >= IDS / 2;
    assert Printed(j)[0] == '-' <==> j >= IDS / 2;
    if i < IDS / 2 {
      DigitsInjective(i, j);
    } else {
      assert Printed(i)[1..] == Digits(IDS - i) && Printed(j)[1..] == Digits(IDS - j);
      DigitsInjective(IDS - i, IDS - j);
    }
  }

  lemma TenDigits()
    ensures Pow10(8) == 100_000_000 && Pow10(10) == 10_000_000_000
  {
    assert Pow10(2) == 100;
    assert Pow10(4) == 1_0000;
    assert Pow10(6) == 100_0000;
  }

  lemma PrintedFits(id: nat)
    requires id < IDS
    ensures |Printed(id)| <= 11
  {
    TenDigits();
    DigitsLength(if id < IDS / 2 then id else IDS - id, 10);
  }

  /** With an address of at most fifty characters no name is cut off, and all differ. */
  lemma NamesInjective(server: string, ip: string, i: nat, j: nat)
    requires i < IDS && j < IDS && |ip| <= LONGEST_ADDRESS
    requires Name(server, ip, i) == Name(server, ip, j)
    ensures i == j
  {
    hide Printed;
    PrintedFits(i);
    PrintedFits(j);
    assert Name(server, ip, i)[|server| + |ip| + 2..] == Printed(i);
    assert Name(server, ip, j)[|server| + |ip| + 2..] == Printed(j);
    PrintedInjective(i, j);
  }

  ghost predicate AllDistinct(server: string, ip: string) {
    forall i, j | 0 <= i < IDS && 0 <= j < IDS && i != j :: Name(server, ip, i) != Name(server, ip, j)
  }

  /** Longer addresses are cut into the id: two negative ids of ten digits then collide. */
  lemma NamesDistinctIff(server: string, ip: string)
    ensures AllDistinct(server, ip) <==> |ip| <= LONGEST_ADDRESS
  {
    if |ip| <= LONGEST_ADDRESS {
      forall i, j | 0 <= i < IDS && 0 <= j < IDS && i != j
        ensures Name(server, ip, i) != Name(server, ip, j)
      {
        if Name(server, ip, i) == Name(server, ip, j) { NamesInjective(server, ip, i, j); }
      }
    } else {
      var i, j := IDS - 1_000_000_000, IDS - 1_000_000_001;
      LongAddressCollides(ip);
      assert Name(server, ip, i) == Name(server, ip, j);
    }
  }

  lemma LongAddressCollides(ip: string)
    requires |ip| > LONGEST_ADDRESS
    ensures Suffix(ip, IDS - 1_000_000_000) == Suffix(ip, IDS - 1_000_000_001)
  {
    TenDigits();
    DigitsLength(100_000_000, 9);
    var front := "-" + ip + "#-" + Digits(100_000_000);
    var n := BUFFER_SIZE - 1;
    assert |front| >= n;
    assert "-" + ip + "#" + Printed(IDS - 1_000_000_000) == front + [Digit(0)];
    assert "-" + ip + "#" + Printed(IDS - 1_000_000_001) == front + [Digit(1)];
    assert (front + [Digit(0)])[..n] == front[..n] == (front + [Digit(1)])[..n];
  }

  // --------------------------------------------------------- what is printed

  predicate IsDigit(c: char) { '0' <= c <= '9' }

  /** The number that a string of digits stands for. */
  function Value(s: string): nat
    requires forall i :: 0 <= i < |s| ==> IsDigit(s[i])
  {
    if s == "" then 0 else
      assert IsDigit(s[|s| - 1]);
      10 * Value(s[..|s| - 1]) + (s[|s| - 1] as int - '0' as int)
  }

  lemma {:induction false} DigitsAreDecimal(n: nat)
    ensures forall i :: 0 <= i < |Digits(n)| ==> IsDigit(Digits(n)[i])
    ensures Value(Digits(n)) == n
    ensures n > 0 ==> Digits(n)[0] != '0'
  {
    var s := Digits(n);
    if n < 10 {
      assert s[..0] == "";
    } else {
      DigitsAreDecimal(n / 10);
      assert s[..|s| - 1] == Digits(n / 10);
      assert s[0] == Digits(n / 10)[0];
    }
  }

  /**
   A name that is not cut off is the name of the server, a dash, the address, a hash, and
   the id in decimal, the ids from 2^31 on as negative numbers.
   */
  lemma NamePrinted(server: string, ip: string, id: nat) returns (digits: string)
    requires id < IDS && |ip| <= LONGEST_ADDRESS
    ensures forall i :: 0 <= i < |digits| ==> IsDigit(digits[i])
    ensures id < 0x8000_0000 ==> Name(server, ip, id) == server + "-" + ip + "#" + digits && Value(digits) == id
    ensures id >= 0x8000_0000 ==>
      Name(server, ip, id) == server + "-" + ip + "#-" + digits && Value(digits) == 0x1_0000_0000 - id
  {
    var n := if id < 0x8000_0000 then id else 0x1_0000_0000 - id;
    digits := Digits(n);
    DigitsAreDecimal(n);
    PrintedFits(id);
    var front := server + "-" + ip + "#";
    assert Name(server, ip, id) == front + Printed(id) by {
      hide Printed, Digits, Value;
      assert server + ("-" + ip + "#" + Printed(id)) == front + Printed(id);
    }
    hide Name, Digits, Value, Suffix;
    if id >= 0x8000_0000 {
      Dashed(server + "-" + ip, digits);
    }
  }

  lemma Dashed(front: string, digits: string)
    ensures front + "#" + ("-" + digits) == front + "#-" + digits
  {
  }

  /** However long the address, at most 63 characters follow the name of the server. */
  lemma NameIsBounded(server: string, ip: string, id: nat)
    requires id < IDS
    ensures server <= Name(server, ip, id) && |Name(server, ip, id)| <= |server| + 63
    ensures |ip| >= 62 ==> Name(server, ip, id) == server + "-" + ip[..62]
  {
    hide Printed;
    if |ip| >= 62 {
      assert ("-" + ip + "#" + Printed(id))[..63] == "-" + ip[..62];
    }
  }
}
