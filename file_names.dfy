/**
 * File-name arithmetic of the archiver: splitting a name at its last '.',
 * the decimal rendering of a millisecond timestamp, and the name chosen when
 * the "done" directory already holds a file of the same name.
 */
module FileNames {

  /** Index of the last `c` in `s`, or -1 when `s` has none (Java's String.lastIndexOf(char)). */
  function LastIndexOf(s: string, c: char): (k: int)
    ensures -1 <= k < |s|
    ensures k == -1 <==> c !in s
    ensures k >= 0 ==> s[k] == c && forall j :: k < j < |s| ==> s[j] != c
    decreases |s|
  {
    if |s| == 0 then -1
    else if s[|s| - 1] == c then |s| - 1
    else
      assert s == s[..|s| - 1] + [s[|s| - 1]];
      LastIndexOf(s[..|s| - 1], c)
  }

  /** `k` is the position of the last '.' of `name`. */
  predicate IsLastDot(name: string, k: int) {
    0 <= k < |name| && name[k] == '.' && forall j :: k < j < |name| ==> name[j] != '.'
  }

  /** The part of a file name before its last '.', or the whole name when it has no '.'. */
  function BaseName(name: string): (b: string)
    ensures |b| <= |name| && b == name[..|b|]
    ensures '.' !in name ==> b == name
    ensures '.' in name ==> IsLastDot(name, |b|)
  {
    var k := LastIndexOf(name, '.');
    if k == -1 then name else name[..k]
  }

  /** The part of a file name from its last '.' on, or "" when it has no '.'. */
  function Extension(name: string): (e: string)
    ensures BaseName(name) + e == name
    ensures e == "" <==> '.' !in name
    ensures e != "" ==> e[0] == '.' && forall j :: 0 < j < |e| ==> e[j] != '.'
  {
    var k := LastIndexOf(name, '.');
    assert k != -1 ==> name == name[..k] + name[k..];
    if k == -1 then "" else name[k..]
  }

  predicate IsDigit(ch: char) {
    '0' <= ch <= '9'
  }

  /** Decimal rendering of a non-negative number without leading zeros (Java's Long.toString). */
  function DecimalString(n: nat): (s: string)
    ensures |s| > 0
    ensures forall i :: 0 <= i < |s| ==> IsDigit(s[i])
    ensures n >= 10 ==> s[0] != '0'
    decreases n
  {
    var last := ['0' + ((n % 10) as char)];
    if n < 10 then last else DecimalString(n / 10) + last
  }

  /** Value of a string of decimal digits; the inverse of DecimalString. */
  function ParseDecimal(s: string): nat
    requires forall i :: 0 <= i < |s| ==> IsDigit(s[i])
    decreases |s|
  {
    if |s| == 0 then 0
    else
      assert IsDigit(s[|s| - 1]);
      ParseDecimal(s[..|s| - 1]) * 10 + ((s[|s| - 1] as int) - ('0' as int))
  }

  lemma {:induction false} ParseDecimalString(n: nat)
    ensures ParseDecimal(DecimalString(n)) == n
    decreases n
  {
    var s := DecimalString(n);
    var d := '0' + ((n % 10) as char);
    if n < 10 {
      assert s == [d];
      assert s[..0] == [];
    } else {
      var p := DecimalString(n / 10);
      assert s == p + [d];
      assert s[..|s| - 1] == p;
      ParseDecimalString(n / 10);
    }
  }

  /** DecimalString never renders two timestamps the same way. */
  lemma DecimalStringInjective(m: nat, n: nat)
    requires DecimalString(m) == DecimalString(n)
    ensures m == n
  {
    ParseDecimalString(m);
    ParseDecimalString(n);
  }

  /**
   * The name used when "done" already holds `name`: the base name, "_", the
   * timestamp in decimal, then the extension (the last '.' and what follows).
   */
  function CollisionName(name: string, millis: nat): (r: string)
    ensures |r| > |name|
  {
    var k := LastIndexOf(name, '.');
    assert k != -1 ==> name == name[..k] + name[k..];
    BaseName(name) + "_" + DecimalString(millis) + Extension(name)
  }

  /** A name without any '.' gets the suffix appended at its end. */
  lemma CollisionNameWithoutDot(name: string, millis: nat)
    requires '.' !in name
    ensures CollisionName(name, millis) == name + "_" + DecimalString(millis)
  {
  }

  /** A name with a '.' is split at its LAST '.', the suffix going before it. */
  lemma CollisionNameAtLastDot(name: string, millis: nat, k: int)
    requires IsLastDot(name, k)
    ensures CollisionName(name, millis) == name[..k] + "_" + DecimalString(millis) + name[k..]
  {
    assert LastIndexOf(name, '.') == k;
  }

  /** The renamed file keeps its extension, and its base name gains exactly "_<millis>". */
  lemma {:induction false} CollisionNameSplit(name: string, millis: nat)
    ensures Extension(CollisionName(name, millis)) == Extension(name)
    ensures BaseName(CollisionName(name, millis)) == BaseName(name) + "_" + DecimalString(millis)
  {
    var t := DecimalString(millis);
    var base, ext := BaseName(name), Extension(name);
    var r := CollisionName(name, millis);
    var stem := base + "_" + t;
    assert r == stem + ext;
    assert forall i :: 0 <= i < |t| ==> t[i] != '.';
    var k := LastIndexOf(name, '.');
    if k == -1 {
      assert ext == [] && r == stem;
      assert forall i :: 0 <= i < |r| ==> r[i] != '.' by {
        forall i | 0 <= i < |r| ensures r[i] != '.' {
          if i < |base| {
            assert r[i] == name[i];
          } else if i > |base| {
            assert r[i] == t[i - |base| - 1];
          }
        }
      }
      assert '.' !in r;
    } else {
      assert IsLastDot(name, k);
      var d := |stem|;
      assert r[d..] == ext;
      assert r[..d] == stem;
      assert IsLastDot(r, d) by {
        forall j | d < j < |r| ensures r[j] != '.' {
          assert r[j] == name[k + (j - d)];
        }
      }
      assert LastIndexOf(r, '.') == d;
    }
  }

  /** Distinct clock readings give distinct collision names. */
  lemma CollisionNameInjective(name: string, m: nat, n: nat)
    requires CollisionName(name, m) == CollisionName(name, n)
    ensures m == n
  {
    CollisionNameSplit(name, m);
    CollisionNameSplit(name, n);
    var base := BaseName(name);
    var s, t := DecimalString(m), DecimalString(n);
    assert base + "_" + s == base + "_" + t;
    assert s == (base + "_" + s)[|base| + 1..];
    assert t == (base + "_" + t)[|base| + 1..];
    DecimalStringInjective(m, n);
  }

  /** The example of a name with two dots: only the last one separates the extension. */
  lemma CollisionNameTwoDots()
    ensures CollisionName("a.b.xml", 1700) == "a.b_1700.xml"
  {
    assert IsLastDot("a.b.xml", 3);
    CollisionNameAtLastDot("a.b.xml", 1700, 3);
    assert DecimalString(1700) == "1700" by {
      assert DecimalString(1) == "1";
      assert DecimalString(17) == "17";
      assert DecimalString(170) == "170";
    }
  }
}
