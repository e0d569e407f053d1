/**
 * The keyboard handling of `Simulation.handleKeyPress`: JavaScript's string
 * comparison and `parseInt`, on the key's name, decide which action a key
 * press takes.
 */
module Keys {
  /** What a key press asks for: the event's `code` and `key` strings. */
  datatype KeyEvent = KeyEvent(code: string, key: string)

  /** What the simulation does in response. */
  datatype Action = TogglePause | Spawn(kind: int) | Ignore

  /**
   * `a < b` on JavaScript strings: code unit by code unit, and a proper prefix
   * is smaller than the string it begins.
   */
  predicate StrLess(a: string, b: string)
    decreases |a|
  {
    if b == [] then false
    else if a == [] then true
    else if a[0] != b[0] then a[0] < b[0]
    else StrLess(a[1..], b[1..])
  }

  /** `a <= b` on JavaScript strings is `!(b < a)`. */
  predicate StrLessEq(a: string, b: string) {
    !StrLess(b, a)
  }

  /** `e.key >= '1' && e.key <= '9'`. */
  predicate DigitGuard(key: string) {
    StrLessEq("1", key) && StrLessEq(key, "9")
  }

  /**
   * The guard passes exactly the keys that begin with one of 1..9, except that
   * after a 9 nothing may follow: a key name such as "1x" passes, "9x" does not.
   */
  lemma DigitGuardShape(key: string)
    ensures DigitGuard(key) <==> |key| > 0 && '1' <= key[0] <= '9' && (key[0] == '9' ==> key == "9")
  {
    if |key| > 0 && key[0] == '9' && |key| > 1 {
      assert key[1..] != [];
      assert StrLess("9", key) by {
        assert "9"[1..] == [];
      }
    }
    if |key| > 0 && key[0] == '1' {
      assert !StrLess(key, "1") by {
        assert "1"[1..] == [];
      }
    }
  }

  predicate IsDigit(c: char) {
    '0' <= c <= '9'
  }

  /** The value of a decimal digit. */
  function DigitValue(c: char): nat
    requires IsDigit(c)
  {
    c as int - '0' as int
  }

  /** The number of leading decimal digits of s. */
  function DigitRun(s: string): (n: nat)
    ensures n <= |s| && forall k | 0 <= k < n :: IsDigit(s[k])
    ensures n < |s| ==> !IsDigit(s[n])
    decreases |s|
  {
    if s == [] || !IsDigit(s[0]) then 0 else 1 + DigitRun(s[1..])
  }

  /** The number a string of decimal digits spells, most significant first. */
  function Decimal(d: string): nat
    requires forall k | 0 <= k < |d| :: IsDigit(d[k])
    decreases |d|
  {
    if d == [] then 0
    else Decimal(d[..|d| - 1]) * 10 + DigitValue(d[|d| - 1])
  }

  /**
   * `parseInt(s)` for a string that begins with a decimal digit: the number
   * its leading digits spell; whatever follows them is ignored.
   */
  function ParseInt(s: string): (n: nat)
    requires |s| > 0 && IsDigit(s[0])
  {
    Decimal(s[..DigitRun(s)])
  }

  /** A one-character digit key parses to its digit. */
  lemma ParseSingleDigit(c: char)
    requires IsDigit(c)
    ensures ParseInt([c]) == DigitValue(c)
  {
    assert [c][1..] == [];
    assert DigitRun([c]) == 1;
    var d := [c][..1];
    assert d == [c] && d[..|d| - 1] == [];
    calc {
      ParseInt([c]);
      Decimal(d);
      Decimal([]) * 10 + DigitValue(c);
      DigitValue(c);
    }
  }

  /**
   * `handleKeyPress(e)`: Space toggles the pause; a key that passes the digit
   * guard asks for a particle of type `parseInt(key) - 1`, which is spawned
   * only when that type is below particleTypes; every other key is ignored.
   */
  function KeyAction(particleTypes: nat, e: KeyEvent): (a: Action)
  {
    if e.code == "Space" then TogglePause
    else if DigitGuard(e.key) then
      DigitGuardShape(e.key);
      var kind := ParseInt(e.key) - 1;
      if kind < particleTypes then Spawn(kind) else Ignore
    else Ignore
  }

  /**
   * Digit keys 1..9 (away from the Space key) spawn the type one below the
   * digit exactly when that type exists, and do nothing otherwise.
   */
  lemma DigitKeySpawns(particleTypes: nat, code: string, c: char)
    requires code != "Space" && '1' <= c <= '9'
    ensures var a := KeyAction(particleTypes, KeyEvent(code, [c]));
      && (a.Spawn? <==> DigitValue(c) - 1 < particleTypes)
      && (a.Spawn? ==> a.kind == DigitValue(c) - 1)
      && (!a.Spawn? ==> a == Ignore)
  {
    DigitGuardShape([c]);
    ParseSingleDigit(c);
  }

  /** A spawned type is never negative: a key past the guard parses to at least 1. */
  lemma SpawnedKindIsType(particleTypes: nat, e: KeyEvent)
    ensures var a := KeyAction(particleTypes, e); a.Spawn? ==> 0 <= a.kind < particleTypes
  {
    if e.code != "Space" && DigitGuard(e.key) {
      DigitGuardShape(e.key);
      LeadingDigitCounts(e.key);
    }
  }

  /** A string that begins with one of 1..9 parses to at least 1. */
  lemma LeadingDigitCounts(s: string)
    requires |s| > 0 && '1' <= s[0] <= '9'
    ensures ParseInt(s) >= 1
  {
    var d := s[..DigitRun(s)];
    DecimalAtLeastLead(d);
  }

  /** A digit string is worth at least its first digit. */
  lemma {:induction false} DecimalAtLeastLead(d: string)
    requires |d| > 0 && forall k | 0 <= k < |d| :: IsDigit(d[k])
    ensures Decimal(d) >= DigitValue(d[0])
    decreases |d|
  {
    if |d| > 1 {
      var init := d[..|d| - 1];
      assert init[0] == d[0];
      DecimalAtLeastLead(init);
    }
  }
}
