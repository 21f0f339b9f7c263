/** The one rule by which keywords are stored and searched. */
module Keywords {

  predicate IsSpace(c: char) {
    c in {' ', '\t', '\n', '\r', '\U{0B}', '\U{0C}'}
  }

  function LowerChar(c: char): char {
    if 'A' <= c <= 'Z' then (c as int + 32) as char else c
  }

  function Lower(s: string): string {
    seq(|s|, i requires 0 <= i < |s| => LowerChar(s[i]))
  }

  function TrimLeft(s: string): string {
    if s != "" && IsSpace(s[0]) then TrimLeft(s[1..]) else s
  }

  function TrimRight(s: string): string {
    if s != "" && IsSpace(s[|s| - 1]) then TrimRight(s[..|s| - 1]) else s
  }

  /** The one rule for storing and for searching: trimmed, lower case (ASCII here). */
  function Normalize(k: string): string {
    Lower(TrimRight(TrimLeft(k)))
  }

  function NormalizeAll(ks: seq<string>): seq<string> {
    seq(|ks|, i requires 0 <= i < |ks| => Normalize(ks[i]))
  }

  lemma {:induction false} TrimFacts(s: string)
    ensures TrimLeft(s) == "" || !IsSpace(TrimLeft(s)[0])
    ensures TrimRight(s) == "" || !IsSpace(TrimRight(s)[|TrimRight(s)| - 1])
    ensures TrimRight(s) <= s
    decreases |s|
  {
    if s == "" {
    } else {
      TrimFacts(s[1..]);
      TrimFacts(s[..|s| - 1]);
    }
  }

  ghost predicate Blank(s: string) {
    forall c :: c in s ==> c in {' ', '\t', '\n', '\r', '\U{0B}', '\U{0C}'}
  }

  lemma {:induction false} TrimLeftDrops(s: string) returns (a: string)
    ensures s == a + TrimLeft(s) && Blank(a)
  {
    if s == "" || !IsSpace(s[0]) {
      a := "";
    } else {
      var rest := TrimLeftDrops(s[1..]);
      a := [s[0]] + rest;
      assert s == [s[0]] + s[1..];
    }
  }

  lemma {:induction false} TrimRightDrops(s: string) returns (b: string)
    ensures s == TrimRight(s) + b && Blank(b)
    decreases |s|
  {
    if s == "" || !IsSpace(s[|s| - 1]) {
      b := "";
    } else {
      var rest := TrimRightDrops(s[..|s| - 1]);
      b := rest + [s[|s| - 1]];
      assert s == s[..|s| - 1] + [s[|s| - 1]];
    }
  }

  /** A keyword is blanks, its core, blanks; the core neither begins nor ends with a blank, and is what
      remains, each capital letter made small. */
  lemma NormalizeMeans(k: string) returns (a: string, core: string, b: string)
    ensures k == a + core + b && Blank(a) && Blank(b)
    ensures core != "" ==> !Blank([core[0]]) && !Blank([core[|core| - 1]])
    ensures |Normalize(k)| == |core|
    ensures forall i :: 0 <= i < |core| ==>
      Normalize(k)[i] as int == core[i] as int + if 'A' <= core[i] <= 'Z' then 'a' as int - 'A' as int else 0
  {
    a := TrimLeftDrops(k);
    b := TrimRightDrops(TrimLeft(k));
    core := TrimRight(TrimLeft(k));
    TrimFacts(k);
    TrimFacts(TrimLeft(k));
    if core != "" {
      assert core[0] == TrimLeft(k)[0];
      assert core[0] in [core[0]] && core[|core| - 1] in [core[|core| - 1]];
    }
  }

  /** The same of the keywords of a list, one by one and in order. */
  lemma EachNormalized(ks: seq<string>, i: nat) returns (a: string, core: string, b: string)
    requires i < |ks|
    ensures |NormalizeAll(ks)| == |ks|
    ensures ks[i] == a + core + b && Blank(a) && Blank(b)
    ensures core != "" ==> !Blank([core[0]]) && !Blank([core[|core| - 1]])
    ensures |NormalizeAll(ks)[i]| == |core|
    ensures forall j :: 0 <= j < |core| ==>
      NormalizeAll(ks)[i][j] as int == core[j] as int + if 'A' <= core[j] <= 'Z' then 'a' as int - 'A' as int else 0
  {
    a, core, b := NormalizeMeans(ks[i]);
  }

  /** Normalizing twice is normalizing once: what is stored is found by what is searched. */
  lemma NormalizeIdempotent(k: string)
    ensures Normalize(Normalize(k)) == Normalize(k)
  {
    var left := TrimLeft(k);
    var t := TrimRight(left);
    TrimFacts(k);
    TrimFacts(left);
    var n := Lower(t);
    if n != "" {
      assert n[0] == LowerChar(left[0]);
      assert n[|n| - 1] == LowerChar(t[|t| - 1]);
    }
    assert Lower(n) == n;
  }
}
