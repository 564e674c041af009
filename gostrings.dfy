/**
 * The few pieces of Go's `strings` package and of Go's string length that the
 * authentication code relies on.  Strings are sequences of Unicode scalar values.
 */
module GoStrings {

  /** Number of occurrences of `c` in `s`. */
  function Count(s: string, c: char): nat
  {
    if s == [] then 0 else (if s[0] == c then 1 else 0) + Count(s[1..], c)
  }

  /** Every occurrence counts: two positions holding `c` make `Count` at least two. */
  lemma {:induction false} CountAtLeastTwo(s: string, c: char, i: nat, j: nat)
    requires i < j < |s| && s[i] == c && s[j] == c
    ensures Count(s, c) >= 2
  {
    if i == 0 {
      CountPositive(s[1..], c, j - 1);
    } else {
      CountAtLeastTwo(s[1..], c, i - 1, j - 1);
    }
  }

  /** One position holding `c` makes `Count` positive. */
  lemma {:induction false} CountPositive(s: string, c: char, i: nat)
    requires i < |s| && s[i] == c
    ensures Count(s, c) >= 1
  {
    if i > 0 {
      CountPositive(s[1..], c, i - 1);
    }
  }

  /**
   * `strings.Split(s, string(sep))` for a one-character separator: the maximal
   * separator-free pieces of `s`, in order, including empty ones.
   */
  function Split(s: string, sep: char): (parts: seq<string>)
    ensures |parts| == Count(s, sep) + 1
  {
    if s == [] then [""]
    else if s[0] == sep then [""] + Split(s[1..], sep)
    else
      var rest := Split(s[1..], sep);
      [[s[0]] + rest[0]] + rest[1..]
  }

  /** `strings.Join(parts, string(sep))`. */
  function Join(parts: seq<string>, sep: char): string
  {
    if |parts| == 0 then ""
    else if |parts| == 1 then parts[0]
    else parts[0] + [sep] + Join(parts[1..], sep)
  }

  /** Splitting loses nothing: joining the pieces gives back the string, and no piece holds the separator. */
  lemma {:induction false} SplitJoin(s: string, sep: char)
    ensures Join(Split(s, sep), sep) == s
    ensures forall i :: 0 <= i < |Split(s, sep)| ==> sep !in Split(s, sep)[i]
  {
    if s != [] {
      SplitJoin(s[1..], sep);
      var rest := Split(s[1..], sep);
      if s[0] == sep {
        assert Split(s, sep) == [""] + rest;
        assert Join(Split(s, sep), sep) == "" + [sep] + Join(rest, sep);
        assert s == [s[0]] + s[1..];
      } else {
        assert Split(s, sep) == [[s[0]] + rest[0]] + rest[1..];
        if |rest| == 1 {
          assert Join(Split(s, sep), sep) == [s[0]] + rest[0];
        } else {
          assert Join(rest, sep) == rest[0] + [sep] + Join(rest[1..], sep);
          assert Join(Split(s, sep), sep) == ([s[0]] + rest[0]) + [sep] + Join(rest[1..], sep);
        }
        assert s == [s[0]] + s[1..];
        forall i | 0 <= i < |Split(s, sep)| ensures sep !in Split(s, sep)[i] {
          if i == 0 {
            assert sep !in rest[0];
          } else {
            assert Split(s, sep)[i] == rest[i];
          }
        }
      }
    }
  }

  /** A separator-free string is its own single piece. */
  lemma {:induction false} SplitNoSeparator(s: string, sep: char)
    requires sep !in s
    ensures Split(s, sep) == [s]
  {
    if s != [] {
      assert sep !in s[1..];
      SplitNoSeparator(s[1..], sep);
      assert s == [s[0]] + s[1..];
    }
  }

  /** A separator after a separator-free prefix cuts exactly there. */
  lemma {:induction false} SplitAfterPrefix(a: string, sep: char, b: string)
    requires sep !in a
    ensures Split(a + [sep] + b, sep) == [a] + Split(b, sep)
  {
    if a == [] {
      assert a + [sep] + b == [sep] + b;
      assert ([sep] + b)[1..] == b;
    } else {
      var s := a + [sep] + b;
      assert s[0] == a[0] && s[1..] == a[1..] + [sep] + b;
      assert sep !in a[1..];
      SplitAfterPrefix(a[1..], sep, b);
      assert [a[0]] + a[1..] == a;
    }
  }

  /** Exactly two pieces means exactly one separator, with the pieces on either side of it. */
  lemma SplitTwo(s: string, sep: char, a: string, b: string)
    ensures Split(s, sep) == [a, b] <==> (s == a + [sep] + b && sep !in a && sep !in b)
  {
    if Split(s, sep) == [a, b] {
      SplitJoin(s, sep);
      assert Join([a, b], sep) == a + [sep] + Join([b], sep);
      assert Split(s, sep)[0] == a && Split(s, sep)[1] == b;
    }
    if s == a + [sep] + b && sep !in a && sep !in b {
      SplitAfterPrefix(a, sep, b);
      SplitNoSeparator(b, sep);
    }
  }

  /** `unicode.ToLower` restricted to ASCII: 'A'..'Z' become 'a'..'z', every other character is kept. */
  function LowerChar(c: char): (r: char)
    ensures 'A' <= c <= 'Z' ==> r as int == c as int + 32
    ensures !('A' <= c <= 'Z') ==> r == c
  {
    if 'A' <= c <= 'Z' then (c as int + 32) as char else c
  }

  /** `strings.ToLower` restricted to ASCII letters. */
  function ToLower(s: string): (r: string)
    ensures |r| == |s|
    ensures forall i :: 0 <= i < |s| ==> r[i] == LowerChar(s[i])
  {
    seq(|s|, i requires 0 <= i < |s| => LowerChar(s[i]))
  }

  /** Number of bytes Go's UTF-8 encoding uses for one character. */
  function RuneLen(c: char): (n: nat)
    ensures 1 <= n <= 4
    ensures n == 1 <==> c as int < 0x80
  {
    if c as int < 0x80 then 1
    else if c as int < 0x800 then 2
    else if c as int < 0x10000 then 3
    else 4
  }

  /** The first byte of the UTF-8 encoding of `c`: the character itself below 0x80, a lead byte from 0xC0 up otherwise. */
  function LeadByte(c: char): (b: nat)
    ensures b < 0x100
    ensures c as int < 0x80 ==> b == c as int
    ensures c as int >= 0x80 ==> 0xC0 <= b
  {
    if c as int < 0x80 then c as int
    else if c as int < 0x800 then 0xC0 + c as int / 0x40
    else if c as int < 0x10000 then 0xE0 + c as int / 0x1000
    else 0xF0 + c as int / 0x40000
  }

  /** Go's `len(s)` for a string: its length in UTF-8 bytes, not in characters. */
  function Utf8Len(s: string): nat
  {
    if s == [] then 0 else RuneLen(s[0]) + Utf8Len(s[1..])
  }

  /** An ASCII string has one byte per character. */
  lemma {:induction false} Utf8LenAscii(s: string)
    requires forall i :: 0 <= i < |s| ==> s[i] as int < 0x80
    ensures Utf8Len(s) == |s|
  {
    if s != [] {
      Utf8LenAscii(s[1..]);
    }
  }

  /** The byte length is at least the character length, and equal to it exactly for ASCII text. */
  lemma {:induction false} Utf8LenBounds(s: string)
    ensures |s| <= Utf8Len(s) <= 4 * |s|
    ensures Utf8Len(s) == |s| <==> forall i :: 0 <= i < |s| ==> s[i] as int < 0x80
  {
    if s != [] {
      Utf8LenBounds(s[1..]);
      if Utf8Len(s) == |s| {
        forall i | 0 <= i < |s| ensures s[i] as int < 0x80 {
          if i > 0 { assert s[i] == s[1..][i - 1]; }
        }
      }
      if forall i :: 0 <= i < |s| ==> s[i] as int < 0x80 {
        assert forall i :: 0 <= i < |s[1..]| ==> s[1..][i] == s[i + 1];
      }
    }
  }
}
