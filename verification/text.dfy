/** Character- and string-level helpers that stand in for the JavaScript string
    built-ins the handler uses: `String.prototype.toLowerCase` and
    `String.prototype.split` with a one-character separator. */
module Text {

  /** True of the capitals `toLowerCase` maps one-to-one onto a letter 32 code
      points higher: ASCII A-Z and the Latin-1 capitals U+00C0..U+00DE except
      U+00D7 (the multiplication sign). Accented capitals such as Í and Ñ are
      among them. */
  predicate IsUpper(c: char)
  {
    ('A' <= c <= 'Z') || ('\U{C0}' <= c <= '\U{DE}' && c != '\U{D7}')
  }

  function LowerChar(c: char): char
  {
    if IsUpper(c) then (c as int + 32) as char else c
  }

  /** `s.toLowerCase()`, restricted to the capitals of `IsUpper`. */
  function Lower(s: string): (r: string)
    ensures |r| == |s|
    ensures forall i :: 0 <= i < |s| ==> r[i] == LowerChar(s[i])
  {
    if |s| == 0 then [] else [LowerChar(s[0])] + Lower(s[1..])
  }

  /** Lower-casing twice is lower-casing once. */
  lemma LowerIdempotent(s: string)
    ensures Lower(Lower(s)) == Lower(s)
  {
    var l := Lower(s);
    forall i | 0 <= i < |s|
      ensures Lower(l)[i] == l[i]
    {
      assert !IsUpper(l[i]);
    }
  }

  /** No character of `s` is a capital. */
  predicate NoUpper(s: string)
  {
    |s| == 0 || (!IsUpper(s[0]) && NoUpper(s[1..]))
  }

  /** A string without capitals is its own lower-case form. */
  lemma {:induction false} LowerFixed(s: string)
    requires NoUpper(s)
    ensures Lower(s) == s
  {
    if |s| > 0 {
      LowerFixed(s[1..]);
      assert s == [s[0]] + s[1..];
    }
  }

  lemma {:induction false} NoUpperConcat(a: string, b: string)
    requires NoUpper(a) && NoUpper(b)
    ensures NoUpper(a + b)
  {
    if |a| > 0 {
      NoUpperConcat(a[1..], b);
      assert (a + b)[1..] == a[1..] + b;
    } else {
      assert a + b == b;
    }
  }

  /** Lower-casing works character by character, so it distributes over
      concatenation. */
  lemma LowerConcat(a: string, b: string)
    ensures Lower(a + b) == Lower(a) + Lower(b)
  {
  }

  /** `parts.join(sep)`. */
  function Join(parts: seq<string>, sep: char): string
  {
    if |parts| == 0 then ""
    else if |parts| == 1 then parts[0]
    else parts[0] + [sep] + Join(parts[1..], sep)
  }

  /** `s.split(sep)` for a one-character separator: the maximal runs between
      separators, in order, including empty runs; the empty string splits into
      one empty part. */
  function Split(s: string, sep: char): (parts: seq<string>)
    ensures |parts| >= 1
    ensures Join(parts, sep) == s
    ensures forall i :: 0 <= i < |parts| ==> sep !in parts[i]
  {
    if |s| == 0 then [""]
    else
      var rest := Split(s[1..], sep);
      if s[0] == sep then
        assert ([""] + rest)[1..] == rest;
        [""] + rest
      else
        var parts := [[s[0]] + rest[0]] + rest[1..];
        assert parts[1..] == rest[1..];
        assert s == [s[0]] + s[1..];
        parts
  }

  /** A string without the separator splits into itself alone. */
  lemma {:induction false} SplitNoSeparator(a: string, sep: char)
    requires sep !in a
    ensures Split(a, sep) == [a]
  {
    if |a| > 0 {
      assert sep !in a[1..];
      SplitNoSeparator(a[1..], sep);
      assert [a[0]] + a[1..] == a;
    }
  }

  /** Splitting `a + sep + b`, where `a` holds no separator, yields `a` followed
      by the parts of `b`. */
  lemma {:induction false} SplitAfterSeparator(a: string, b: string, sep: char)
    requires sep !in a
    ensures Split(a + [sep] + b, sep) == [a] + Split(b, sep)
  {
    var s := a + [sep] + b;
    if |a| == 0 {
      assert s[0] == sep && s[1..] == b;
    } else {
      assert s[0] == a[0];
      assert s[1..] == a[1..] + [sep] + b;
      assert sep !in a[1..];
      SplitAfterSeparator(a[1..], b, sep);
      assert [a[0]] + a[1..] == a;
    }
  }

  /** `sub` occurs in `s` starting at index `i`. */
  predicate OccursAt(s: string, sub: string, i: int)
  {
    0 <= i <= |s| - |sub| && s[i..i + |sub|] == sub
  }

  /** A string occurs at the end of any string it is appended to. */
  lemma OccursAtEnd(a: string, sub: string)
    ensures OccursAt(a + sub, sub, |a|)
  {
    assert (a + sub)[|a|..|a| + |sub|] == sub;
  }

  /** An occurrence survives appending to either side, shifted by what was
      put in front. */
  lemma OccursInConcat(a: string, b: string, sub: string, i: int)
    ensures OccursAt(a, sub, i) ==> OccursAt(a + b, sub, i)
    ensures OccursAt(b, sub, i) ==> OccursAt(a + b, sub, |a| + i)
  {
    if OccursAt(a, sub, i) {
      assert (a + b)[i..i + |sub|] == a[i..i + |sub|];
    }
    if OccursAt(b, sub, i) {
      assert (a + b)[|a| + i..|a| + i + |sub|] == b[i..i + |sub|];
    }
  }

  /** `sub` occurs in `s` as a contiguous run. */
  ghost predicate Contains(s: string, sub: string)
  {
    exists i :: OccursAt(s, sub, i)
  }
}
