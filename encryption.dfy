/** Stored file names for uploaded resumes: `os.path.splitext` on POSIX
    paths and `generate_unique_filename`. The clock reading and the eight
    random bytes are inputs. */
module Encryption {
  import opened Strings

  /** `s.rfind(c)`: the last index of `c`, or -1. */
  function RFind(s: string, c: char): (r: int)
    ensures -1 <= r < |s|
    ensures r >= 0 ==> s[r] == c && forall k :: r < k < |s| ==> s[k] != c
    ensures r == -1 ==> forall k :: 0 <= k < |s| ==> s[k] != c
  {
    if s == [] then -1
    else if s[|s| - 1] == c then |s| - 1
    else RFind(s[..|s| - 1], c)
  }

  predicate AllDots(s: string) {
    forall k :: 0 <= k < |s| ==> s[k] == '.'
  }

  /** `os.path.splitext(p)[1]`: from the last dot of the last path
      component to the end, case kept; empty when that component has no
      dot, or only leading dots before it (".bashrc"). */
  function SplitExt(p: string): (ext: string)
    ensures ext == [] || (|ext| <= |p| && ext == p[|p| - |ext|..])
    ensures ext != [] ==> ext[0] == '.' && forall k :: 0 < k < |ext| ==> ext[k] != '.' && ext[k] != '/'
    ensures ext != [] ==> ext == p[RFind(p, '.')..]
  {
    var sep := RFind(p, '/');
    var dot := RFind(p, '.');
    if dot > sep && !AllDots(p[sep + 1..dot]) then p[dot..] else []
  }

  /** A path has an extension exactly when its last component has a dot
      somewhere after a character that is not a dot ("a/b.c.pdf" and
      "x..pdf" have one, "a.b/c" and "..pdf" do not). */
  lemma {:induction false} SplitExtNonEmptyIff(p: string)
    ensures SplitExt(p) != [] <==> exists j, k :: RFind(p, '/') < j < k < |p| && p[j] != '.' && p[k] == '.'
  {
    var sep := RFind(p, '/');
    var dot := RFind(p, '.');
    if dot > sep && !AllDots(p[sep + 1..dot]) {
      var name := p[sep + 1..dot];
      var m :| 0 <= m < |name| && name[m] != '.';
      assert name[m] == p[sep + 1 + m];
      assert sep < sep + 1 + m < dot < |p| && p[sep + 1 + m] != '.' && p[dot] == '.';
    } else {
      forall j, k | sep < j < k < |p| && p[k] == '.'
        ensures p[j] == '.'
      {
        assert k <= dot;
        assert dot > sep;
        var name := p[sep + 1..dot];
        assert AllDots(name);
        assert name[j - sep - 1] == p[j];
      }
    }
  }

  lemma {:induction false} RFindConcat(a: string, b: string, c: char)
    ensures RFind(a + b, c) == if RFind(b, c) >= 0 then |a| + RFind(b, c) else RFind(a, c)
    decreases |b|
  {
    if b == [] {
      assert a + b == a;
    } else {
      var ab := a + b;
      if b[|b| - 1] != c {
        assert ab[..|ab| - 1] == a + b[..|b| - 1];
        RFindConcat(a, b[..|b| - 1], c);
      }
    }
  }

  /** A name without dots or slashes followed by "." and a suffix without
      dots or slashes splits at that dot, the suffix's case kept
      ("resume.PDF" gives ".PDF"). */
  lemma {:induction false} SplitExtOfNameAndSuffix(base: string, suffix: string)
    requires base != [] && forall k :: 0 <= k < |base| ==> base[k] != '.' && base[k] != '/'
    requires forall k :: 0 <= k < |suffix| ==> suffix[k] != '.' && suffix[k] != '/'
    ensures SplitExt(base + "." + suffix) == "." + suffix
  {
    var p := base + ("." + suffix);
    assert base + "." + suffix == p;
    RFindConcat(base, "." + suffix, '/');
    RFindConcat(base, "." + suffix, '.');
    RFindConcat(".", suffix, '/');
    RFindConcat(".", suffix, '.');
    assert RFind(p, '/') == -1;
    assert RFind(p, '.') == |base|;
    assert p[0..|base|] == base;
    assert !AllDots(base) by { assert base[0] != '.'; }
  }

  /** Dots that only lead a name do not start a suffix (".bashrc" and
      "..pdf" have none). */
  lemma {:induction false} SplitExtOfLeadingDots(dots: string, name: string)
    requires dots != [] && AllDots(dots)
    requires forall k :: 0 <= k < |name| ==> name[k] != '.' && name[k] != '/'
    ensures SplitExt(dots + name) == ""
  {
    var p := dots + name;
    RFindConcat(dots, name, '/');
    RFindConcat(dots, name, '.');
    assert RFind(dots, '/') == -1;
    assert RFind(dots, '.') == |dots| - 1;
    assert p[0..|dots| - 1] == dots[..|dots| - 1];
  }

  const RandomBytes: nat := 8

  /** `generate_unique_filename`: `"{user_id}_{timestamp}_{random}{ext}.enc"`. */
  function GenerateUniqueFilename(originalFilename: string, userId: nat, timestamp: nat, random: seq<bv8>): (name: string)
    requires |random| == RandomBytes
    ensures |name| >= 4 && name[|name| - 4..] == ".enc"
    ensures name == DecimalString(userId) + "_" + DecimalString(timestamp) + "_" + TokenHex(random)
                    + SplitExt(originalFilename) + ".enc"
  {
    DecimalString(userId) + "_" + DecimalString(timestamp) + "_" + TokenHex(random) + SplitExt(originalFilename) + ".enc"
  }

  /** The part of `s` before the first `c` (all of `s` when there is none). */
  function Before(s: string, c: char): (r: string)
    ensures |r| <= |s| && r == s[..|r|]
  {
    if s == [] || s[0] == c then [] else [s[0]] + Before(s[1..], c)
  }

  /** The part of `s` after the first `c` (empty when there is none). */
  function After(s: string, c: char): (r: string)
    ensures |r| <= |s|
  {
    if s == [] then [] else if s[0] == c then s[1..] else After(s[1..], c)
  }

  lemma {:induction false} SplitAtFirst(a: string, c: char, b: string)
    requires forall k :: 0 <= k < |a| ==> a[k] != c
    ensures Before(a + [c] + b, c) == a
    ensures After(a + [c] + b, c) == b
  {
    if a != [] {
      SplitAtFirst(a[1..], c, b);
      assert (a + [c] + b)[1..] == a[1..] + [c] + b;
    } else {
      assert a + [c] + b == [c] + b;
    }
  }

  /** The stored name starts with the uploader's id and the second of the
      upload, each followed by "_", and the random part is 16 lower-case
      hexadecimal characters. */
  lemma {:induction false} FilenameFields(originalFilename: string, userId: nat, timestamp: nat, random: seq<bv8>)
    requires |random| == RandomBytes
    ensures var name := GenerateUniqueFilename(originalFilename, userId, timestamp, random);
            && Before(name, '_') == DecimalString(userId)
            && Before(After(name, '_'), '_') == DecimalString(timestamp)
            && |TokenHex(random)| == 16
            && |After(After(name, '_'), '_')| >= 16
            && After(After(name, '_'), '_')[..16] == TokenHex(random)
  {
    var h := TokenHex(random);
    var tail := h + SplitExt(originalFilename) + ".enc";
    NoUnderscoreInDecimal(userId);
    NoUnderscoreInDecimal(timestamp);
    ThreeFields(DecimalString(userId), DecimalString(timestamp), tail);
    Regroup(DecimalString(userId), DecimalString(timestamp), h, SplitExt(originalFilename));
    assert tail[..|h|] == h;
  }

  /** Regrouping the stored name around its third field. */
  lemma Regroup(a: string, b: string, h: string, e: string)
    ensures a + "_" + b + "_" + h + e + ".enc" == a + "_" + b + "_" + (h + e + ".enc")
  {
  }

  /** A decimal string holds no "_". */
  lemma NoUnderscoreInDecimal(n: nat)
    ensures forall k :: 0 <= k < |DecimalString(n)| ==> DecimalString(n)[k] != '_'
  {
  }

  /** "a_b_rest" splits back into a, b and rest when a and b hold no "_". */
  lemma ThreeFields(a: string, b: string, rest: string)
    requires forall k :: 0 <= k < |a| ==> a[k] != '_'
    requires forall k :: 0 <= k < |b| ==> b[k] != '_'
    ensures Before(a + "_" + b + "_" + rest, '_') == a
    ensures Before(After(a + "_" + b + "_" + rest, '_'), '_') == b
    ensures After(After(a + "_" + b + "_" + rest, '_'), '_') == rest
  {
    var tail := b + "_" + rest;
    assert a + "_" + b + "_" + rest == a + ['_'] + tail;
    SplitAtFirst(a, '_', tail);
    assert tail == b + ['_'] + rest;
    SplitAtFirst(b, '_', rest);
  }

  /** Two uploads by different users, or by one user in different seconds,
      never get the same stored name. */
  lemma UniqueAcrossUsersAndSeconds(f1: string, u1: nat, t1: nat, r1: seq<bv8>,
                                    f2: string, u2: nat, t2: nat, r2: seq<bv8>)
    requires |r1| == RandomBytes && |r2| == RandomBytes
    requires u1 != u2 || t1 != t2
    ensures GenerateUniqueFilename(f1, u1, t1, r1) != GenerateUniqueFilename(f2, u2, t2, r2)
  {
    FilenameFields(f1, u1, t1, r1);
    FilenameFields(f2, u2, t2, r2);
    if GenerateUniqueFilename(f1, u1, t1, r1) == GenerateUniqueFilename(f2, u2, t2, r2) {
      DecimalStringInjective(u1, u2);
      DecimalStringInjective(t1, t2);
    }
  }
}
