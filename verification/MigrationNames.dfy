/** The file name of the next migration: one more than the highest timestamp there is. */
module MigrationNames {
  import opened Numerals

  const STAMP := 14

  /** Fourteen digits and an underscore. */
  predicate Stamped(name: string) {
    |name| > STAMP && IsNumeral(name[..STAMP]) && name[STAMP] == '_'
  }

  ghost function StampOf(name: string): nat
    requires Stamped(name)
  {
    Value(name[..STAMP])
  }

  const SUFFIX := "_seed_agent_atom_bodies.sql"

  /** The name starts with the fourteen digits of the number and an underscore. */
  ghost predicate HasStamp(name: string, n: nat) {
    |name| >= 15 && name[14] == '_' && (forall i :: 0 <= i < 14 ==> '0' <= name[i] <= '9') && Value(name[..14]) == n
  }

  lemma StampedIff(name: string)
    ensures Stamped(name) ==> HasStamp(name, StampOf(name))
    ensures forall n :: HasStamp(name, n) ==> Stamped(name) && StampOf(name) == n
  {
    if |name| >= 15 {
      assert forall i :: 0 <= i < 14 ==> name[..14][i] == name[i];
    }
  }

  lemma FourteenDigits()
    ensures Pow10(STAMP) == 100_000_000_000_000
  {
    assert Pow10(4) == 10000;
    assert Pow10(9) == 10 * 10 * 10 * 10 * 10 * Pow10(4);
    assert Pow10(14) == 10 * 10 * 10 * 10 * 10 * Pow10(9);
  }

  method NextMigrationTimestamp(files: seq<string>) returns (stamp: string, ghost max: nat)
    ensures IsNumeral(stamp) && |stamp| >= 14 && Value(stamp) == max + 1
    ensures forall f, n: nat :: f in files && HasStamp(f, n) ==> n <= max
    ensures max == 0 || exists f :: f in files && HasStamp(f, max)
    // it sorts after every stamped file, unless fourteen digits no longer do
    ensures max + 1 < 100_000_000_000_000 <==>
            forall f, n: nat :: f in files && HasStamp(f, n) ==> LexLess(f, stamp + "_seed_agent_atom_bodies.sql")
  {
    FourteenDigits();
    hide Numeral, Value, LexLess, Pow10, HasStamp;
    forall f | f in files
      ensures Stamped(f) ==> HasStamp(f, StampOf(f))
      ensures forall n :: HasStamp(f, n) ==> Stamped(f) && StampOf(f) == n
    {
      StampedIff(f);
    }
    var highest := 0;
    for i := 0 to |files|
      invariant forall k :: 0 <= k < i && Stamped(files[k]) ==> StampOf(files[k]) <= highest
      invariant highest == 0 || exists f :: f in files && Stamped(f) && StampOf(f) == highest
    {
      var f := files[i];
      if Stamped(f) {
        var n := Value(f[..STAMP]);
        if n > highest {
          highest := n;
          assert f in files && StampOf(f) == highest;
        }
      }
    }
    max := highest;
    stamp := PadStart(Numeral(highest + 1), STAMP, '0');
    NumeralValue(highest + 1);
    PadStartValue(Numeral(highest + 1), STAMP);
    SortsLast(files, stamp, highest);
  }

  /**
   The new migration sorts after every stamped one exactly when the stamp
   still has fourteen digits; one past 99999999999999 it sorts before the last.
   */
  lemma SortsLast(files: seq<string>, stamp: string, max: nat)
    requires stamp == PadStart(Numeral(max + 1), STAMP, '0') && IsNumeral(stamp) && Value(stamp) == max + 1
    requires forall f :: f in files && Stamped(f) ==> StampOf(f) <= max
    requires max == 0 || exists f :: f in files && Stamped(f) && StampOf(f) == max
    ensures (forall f :: f in files && Stamped(f) ==> LexLess(f, stamp + SUFFIX)) <==> max + 1 < Pow10(STAMP)
  {
    hide Numeral, Value, LexLess;
    NumeralLength(max + 1, STAMP);
    if max + 1 < Pow10(STAMP) {
      forall f | f in files && Stamped(f) ensures LexLess(f, stamp + SUFFIX) {
        LexLessIsLess(f[..STAMP], stamp);
        assert f == f[..STAMP] + f[STAMP..];
        LexLessExtends(f[..STAMP], stamp, f[STAMP..], SUFFIX);
      }
    } else {
      var f :| f in files && Stamped(f) && StampOf(f) == max;
      ValueBelow(f[..STAMP]);
      NumeralLength(max + 1, STAMP + 1);
      PastTheEnd(f, stamp, max);
    }
  }

  /** 99999999999999 is followed by a fifteen-digit stamp, which starts with a 1. */
  lemma PastTheEnd(f: string, stamp: string, max: nat)
    requires Stamped(f) && StampOf(f) == max && max + 1 == Pow10(STAMP)
    requires IsNumeral(stamp) && |stamp| == STAMP + 1 && Value(stamp) == max + 1
    ensures !LexLess(f, stamp + SUFFIX)
  {
    hide Value, Pow10;
    StartsWithOne(stamp, STAMP);
    StartsWithNine(f[..STAMP], STAMP);
    assert stamp[0] == '1' && f[0] == f[..STAMP][0] == '9';
  }

  lemma StartsWithOne(s: string, n: nat)
    requires IsNumeral(s) && |s| == n + 1 && Value(s) == Pow10(n)
    ensures s[0] == '1'
  {
    hide Value, Pow10;
    ZerosValue(n);
    ValueConcat("1", Repeat('0', n));
    OneValue();
    LexLessIsLess(s, "1" + Repeat('0', n));
  }

  lemma OneValue()
    ensures IsNumeral("1") && Value("1") == 1
  {
    assert "1"[..0] == "";
  }

  lemma StartsWithNine(s: string, n: nat)
    requires IsNumeral(s) && |s| == n > 0 && Value(s) == Pow10(n) - 1
    ensures s[0] == '9'
  {
    hide Value, Pow10;
    NinesValue(n);
    LexLessIsLess(s, Repeat('9', n));
  }

  lemma {:induction false} NinesValue(n: nat)
    ensures IsNumeral(Repeat('9', n)) && Value(Repeat('9', n)) == Pow10(n) - 1
  {
    if n > 0 {
      NinesValue(n - 1);
      assert Repeat('9', n)[..n - 1] == Repeat('9', n - 1);
    }
  }
}
