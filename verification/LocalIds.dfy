/** Offline transaction ids (apps/edge/src/store/localStore.ts, nextLocalTransactionId). */
module LocalIds {
  import opened NetWeight

  predicate IsCodeChar(c: char) {
    'A' <= c <= 'Z' || '0' <= c <= '9'
  }

  function Upper(c: char): char {
    if 'a' <= c <= 'z' then (c as int - 32) as char else c
  }

  /** Upper-cased letters and digits of the gateway code. */
  function CodeChars(code: string): (r: string)
    ensures forall i | 0 <= i < |r| :: IsCodeChar(r[i])
  {
    if code == [] then []
    else (if IsCodeChar(Upper(code[0])) then [Upper(code[0])] else []) + CodeChars(code[1..])
  }

  function Compact(code: string): (r: string)
    ensures 1 <= |r| <= 16 && '-' !in r
  {
    var chars := CodeChars(code);
    var head := if |chars| > 16 then chars[..16] else chars;
    if head == [] then "EDGE01" else head
  }

  /** The calendar day of an ISO timestamp, dashes removed: the key of the per-day counter. */
  function DayKey(iso: string): (r: string)
    ensures '-' !in r
  {
    WithoutDashes(if |iso| > 10 then iso[..10] else iso)
  }

  function WithoutDashes(s: string): (r: string)
    ensures '-' !in r
  {
    if s == [] then [] else (if s[0] == '-' then [] else [s[0]]) + WithoutDashes(s[1..])
  }

  function Format(compact: string, day: string, sequence: nat): string {
    compact + "-" + day + "-" + PadStart(Digits(sequence), 6)
  }

  lemma {:induction false} CodeCharsSplit(a: string, b: string)
    ensures CodeChars(a + b) == CodeChars(a) + CodeChars(b)
  {
    if a == [] {
      assert a + b == b;
    } else {
      assert (a + b)[1..] == a[1..] + b;
      CodeCharsSplit(a[1..], b);
    }
  }

  lemma {:induction false} CodeCharsKept(code: string)
    requires forall c | c in code :: IsCodeChar(c)
    ensures CodeChars(code) == code
  {
    if code != [] {
      assert code[0] in code;
      CodeCharsKept(code[1..]);
    }
  }

  /** A gateway code of capitals and digits is used as it is, cut off after sixteen characters. */
  lemma CompactKeeps(code: string)
    requires code != [] && forall c | c in code :: 'A' <= c <= 'Z' || '0' <= c <= '9'
    ensures Compact(code) == if |code| <= 16 then code else code[..16]
  {
    CodeCharsKept(code);
  }

  lemma CodeCharsAround(a: string, c: char, b: string)
    ensures CodeChars(a + [c] + b) == CodeChars(a) + CodeChars([c]) + CodeChars(b)
  {
    hide CodeChars;
    CodeCharsSplit(a + [c], b);
    CodeCharsSplit(a, [c]);
  }

  lemma CodeCharsOne(c: char)
    ensures CodeChars([c]) ==
      if 'a' <= c <= 'z' then [(c as int - 32) as char]
      else if 'A' <= c <= 'Z' || '0' <= c <= '9' then [c] else []
  {
    assert [c][1..] == [];
  }

  /** Anywhere in a gateway code, a small letter counts as its capital and anything but a letter or a digit
      does not count; a code with nothing that counts is EDGE01. */
  lemma CompactIgnores(a: string, c: char, b: string)
    ensures 'a' <= c <= 'z' ==> Compact(a + [c] + b) == Compact(a + [(c as int - 32) as char] + b)
    ensures !('a' <= c <= 'z' || 'A' <= c <= 'Z' || '0' <= c <= '9') ==> Compact(a + [c] + b) == Compact(a + b)
    ensures Compact("") == "EDGE01"
  {
    assert CodeChars("") == "";
    hide CodeChars;
    CodeCharsAround(a, c, b);
    CodeCharsOne(c);
    CodeCharsSplit(a, b);
    if 'a' <= c <= 'z' {
      CodeCharsAround(a, (c as int - 32) as char, b);
      CodeCharsOne((c as int - 32) as char);
    } else if !('A' <= c <= 'Z' || '0' <= c <= '9') {
      assert CodeChars(a) + [] + CodeChars(b) == CodeChars(a) + CodeChars(b);
    }
  }

  lemma {:induction false} WithoutDashesSplit(a: string, b: string)
    ensures WithoutDashes(a + b) == WithoutDashes(a) + WithoutDashes(b)
  {
    if a == [] {
      assert a + b == b;
    } else {
      assert (a + b)[1..] == a[1..] + b;
      WithoutDashesSplit(a[1..], b);
    }
  }

  lemma {:induction false} NoDashesKept(s: string)
    requires '-' !in s
    ensures WithoutDashes(s) == s
  {
    if s != [] {
      NoDashesKept(s[1..]);
    }
  }

  lemma Undashed(a: string, b: string)
    requires '-' !in a
    ensures WithoutDashes(a + "-" + b) == a + WithoutDashes(b)
  {
    WithoutDashesSplit(a + "-", b);
    WithoutDashesSplit(a, "-");
    NoDashesKept(a);
    assert WithoutDashes("-") == "" + WithoutDashes("-"[1..]);
    assert a + "" == a;
  }

  /** The day of a timestamp is its year, month and day, whatever the time: timestamps of one day share a
      counter and those of different days do not. */
  lemma DayKeyIs(y: string, m: string, d: string, rest: string)
    requires |y| == 4 && |m| == 2 && |d| == 2 && '-' !in y && '-' !in m && '-' !in d
    ensures DayKey(y + "-" + (m + "-" + d) + rest) == y + (m + d)
  {
    hide WithoutDashes;
    var date := y + "-" + (m + "-" + d);
    assert (date + rest)[..10] == date;
    assert |rest| == 0 ==> date + rest == date;
    Undashed(y, m + "-" + d);
    Undashed(m, d);
    NoDashesKept(d);
  }

  /** Up to a million visits a day have a number of exactly six digits, later ones as many as they need. */
  lemma FormatEndsInNumber(compact: string, day: string, n: nat)
    ensures var id, k := Format(compact, day, n), |compact| + |day| + 2;
      && k <= |id| && id[..k] == compact + "-" + day + "-"
      && AllDigits(id[k..]) && Value(id[k..]) == n && |id| - k >= 6 && (n < 1000000 ==> |id| - k == 6)
  {
    hide Digits, PadStart;
    ValueOfPadStart(Digits(n), 6);
    ValueOfDigits(n);
    var id, prefix := Format(compact, day, n), compact + "-" + day + "-";
    assert id == prefix + PadStart(Digits(n), 6);
    assert id[|prefix|..] == PadStart(Digits(n), 6);
    if n < 1000000 {
      assert Power10(6) == 1000000 by {
        assert Power10(2) == 100;
        assert Power10(4) == 10000;
      }
      DigitsBound(n, 6);
    }
  }

  lemma SplitAtDash(a: string, b: string, x: string, y: string)
    requires '-' !in a && '-' !in b && a + "-" + x == b + "-" + y
    ensures a == b && x == y
  {
    var s, t := a + "-" + x, b + "-" + y;
    assert s[|a|] == '-' && t[|b|] == '-';
    assert forall i | 0 <= i < |b| :: t[i] == b[i] != '-';
    assert forall i | 0 <= i < |a| :: s[i] == a[i] != '-';
    assert a == s[..|a|] && b == t[..|b|];
    assert x == s[|a| + 1..] && y == t[|b| + 1..];
  }

  /** An id determines the gateway code, the day and the number it was built from. */
  lemma FormatInjective(c1: string, d1: string, n1: nat, c2: string, d2: string, n2: nat)
    requires '-' !in c1 && '-' !in c2 && '-' !in d1 && '-' !in d2
    requires Format(c1, d1, n1) == Format(c2, d2, n2)
    ensures c1 == c2 && d1 == d2 && n1 == n2
  {
    hide Digits, PadStart;
    var p1, p2 := PadStart(Digits(n1), 6), PadStart(Digits(n2), 6);
    assert Format(c1, d1, n1) == c1 + "-" + (d1 + "-" + p1);
    assert Format(c2, d2, n2) == c2 + "-" + (d2 + "-" + p2);
    SplitAtDash(c1, c2, d1 + "-" + p1, d2 + "-" + p2);
    SplitAtDash(d1, d2, p1, p2);
    ValueOfPadStart(Digits(n1), 6);
    ValueOfPadStart(Digits(n2), 6);
    ValueOfDigits(n1);
    ValueOfDigits(n2);
  }
}
