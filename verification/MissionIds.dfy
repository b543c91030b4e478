/** Mission ids as the services see them: the counter written in decimal behind a fixed prefix. */
module MissionIds {

  const DIGITS: string := "0123456789"

  function Decimal(n: nat): (s: string)
    ensures s != []
  {
    if n < 10 then [DIGITS[n]] else Decimal(n / 10) + [DIGITS[n % 10]]
  }

  function IdText(n: nat): (s: string)
    ensures s != []
  {
    "mission-" + Decimal(n)
  }

  lemma {:induction false} DecimalIsInjective(a: nat, b: nat)
    requires Decimal(a) == Decimal(b)
    ensures a == b
  {
    var s := Decimal(a);
    assert s[|s| - 1] == DIGITS[a % 10] == DIGITS[b % 10];
    assert a % 10 == b % 10;
    if a >= 10 && b >= 10 {
      assert s[..|s| - 1] == Decimal(a / 10);
      assert s[..|s| - 1] == Decimal(b / 10);
      DecimalIsInjective(a / 10, b / 10);
    }
  }

  /** Different counter values give different id texts. */
  lemma IdTextIsInjective(a: nat, b: nat)
    requires IdText(a) == IdText(b)
    ensures a == b
  {
    assert IdText(a)[8..] == Decimal(a) && IdText(b)[8..] == Decimal(b);
    DecimalIsInjective(a, b);
  }

  /** The number that a row of decimal digits stands for. */
  function Value(s: string): int {
    if s == [] then 0 else 10 * Value(s[..|s| - 1]) + (s[|s| - 1] as int - '0' as int)
  }

  predicate IsDigits(s: string) {
    forall i :: 0 <= i < |s| ==> '0' <= s[i] <= '9'
  }

  lemma {:induction false} DecimalReadsBack(n: nat)
    ensures Value(Decimal(n)) == n && IsDigits(Decimal(n))
    ensures Decimal(n)[0] == '0' ==> n == 0
  {
    var digit := [DIGITS[n % 10]];
    assert digit[0] as int == '0' as int + n % 10;
    if n >= 10 {
      DecimalReadsBack(n / 10);
      assert (Decimal(n / 10) + digit)[..|Decimal(n / 10)|] == Decimal(n / 10);
    } else {
      assert Value(digit[..0]) == 0;
    }
  }

  /** An id text is the prefix and the counter in decimal digits without leading zeros. */
  lemma IdTextReadsBack(n: nat)
    ensures
      var text := IdText(n);
      && |text| > 8 && text[..8] == "mission-"
      && IsDigits(text[8..]) && Value(text[8..]) == n && (text[8] == '0' ==> n == 0)
  {
    DecimalReadsBack(n);
    assert IdText(n)[8..] == Decimal(n);
  }
}
