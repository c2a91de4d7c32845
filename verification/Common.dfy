/** Datatypes and orders shared by the models of the individual services. */
module Common {

  datatype Option<+T> = None | Some(value: T)

  datatype Result<+T, +E> = Ok(value: T) | Err(error: E)

  const U32_MAX: nat := 0xFFFF_FFFF

  ghost predicate Distinct<T(!new)>(s: seq<T>) {
    forall i, j :: 0 <= i < j < |s| ==> s[i] != s[j]
  }

  /** The white space of Unicode. */
  predicate Whitespace(c: char) {
    '\t' <= c <= '\r' || '\U{2000}' <= c <= '\U{200A}'
    || c in [' ', '\U{85}', '\U{A0}', '\U{1680}', '\U{2028}', '\U{2029}', '\U{202F}', '\U{205F}', '\U{3000}']
  }

  /** `trim().is_empty()`. */
  predicate Blank(text: string) {
    forall i :: 0 <= i < |text| ==> Whitespace(text[i])
  }

  /** `char::is_control`. */
  predicate Control(c: char) {
    c < ' ' || '\U{7F}' <= c <= '\U{9F}'
  }

  /** The length of a Rust text, which is that of its UTF-8 encoding. */
  function Utf8Length(text: string): nat {
    if text == "" then 0
    else
      var c := text[|text| - 1];
      Utf8Length(text[..|text| - 1])
      + (if c < '\U{80}' then 1 else if c < '\U{800}' then 2 else if c < '\U{10000}' then 3 else 4)
  }

  /** A text is as long as its parts, and a character takes up to four bytes, by its code point. */
  lemma {:induction false} Utf8LengthAdds(a: string, b: string)
    ensures Utf8Length(a + b) == Utf8Length(a) + Utf8Length(b)
  {
    if b == "" {
      assert a + b == a;
    } else {
      assert (a + b)[..|a + b| - 1] == a + b[..|b| - 1];
      Utf8LengthAdds(a, b[..|b| - 1]);
    }
  }

  lemma Utf8LengthOfOne(c: char)
    ensures Utf8Length([c]) == 1 <==> c as int <= 0x7F
    ensures Utf8Length([c]) == 2 <==> 0x7F < c as int <= 0x7FF
    ensures Utf8Length([c]) == 3 <==> 0x7FF < c as int <= 0xFFFF
    ensures Utf8Length([c]) <= 4
  {
    assert [c][..0] == "";
  }

  /** Byte-wise order on texts, as Rust's `str::cmp` on ASCII slugs. */
  predicate TextLe(a: string, b: string) {
    a == [] || (b != [] && (a[0] < b[0] || (a[0] == b[0] && TextLe(a[1..], b[1..]))))
  }

  lemma {:induction false} TextLeTotal(a: string, b: string)
    ensures TextLe(a, b) || TextLe(b, a)
    ensures TextLe(a, b) && TextLe(b, a) ==> a == b
  {
    if a != [] && b != [] {
      TextLeTotal(a[1..], b[1..]);
      assert a == [a[0]] + a[1..] && b == [b[0]] + b[1..];
    }
  }

  /** A proper beginning of the other text, or smaller at the first difference. */
  ghost predicate TextBefore(a: string, b: string) {
    exists k :: 0 <= k <= |a| && k < |b| && a[..k] == b[..k] && (k == |a| || a[k] < b[k])
  }

  lemma NotBeforeItself(a: string)
    ensures !TextBefore(a, a)
  {
  }

  lemma TextBeforeRest(a: string, b: string)
    requires a != [] && b != [] && a[0] == b[0]
    ensures TextBefore(a, b) <==> TextBefore(a[1..], b[1..])
  {
    if TextBefore(a[1..], b[1..]) {
      var k :| 0 <= k <= |a[1..]| && k < |b[1..]| && a[1..][..k] == b[1..][..k] && (k == |a[1..]| || a[1..][k] < b[1..][k]);
      assert a[..k + 1] == [a[0]] + a[1..][..k] && b[..k + 1] == [b[0]] + b[1..][..k];
    }
    if TextBefore(a, b) {
      var k :| 0 <= k <= |a| && k < |b| && a[..k] == b[..k] && (k == |a| || a[k] < b[k]);
      assert a[1..][..k - 1] == a[..k][1..] && b[1..][..k - 1] == b[..k][1..];
    }
  }

  lemma TextBeforeFirst(a: string, b: string)
    requires a != [] && b != [] && a[0] != b[0]
    ensures TextBefore(a, b) <==> a[0] < b[0]
  {
    assert forall k :: 0 < k <= |a| && k < |b| ==> a[..k][0] != b[..k][0];
    if a[0] < b[0] {
      assert a[..0] == b[..0];
    }
  }

  lemma {:induction false} TextLeMeans(a: string, b: string)
    ensures TextLe(a, b) <==> a == b || TextBefore(a, b)
  {
    if a == [] {
      assert b != [] ==> a[..0] == b[..0];
    } else if b != [] {
      if a[0] == b[0] {
        TextLeMeans(a[1..], b[1..]);
        TextBeforeRest(a, b);
        assert a == [a[0]] + a[1..] && b == [b[0]] + b[1..];
      } else {
        TextBeforeFirst(a, b);
      }
    }
  }

  lemma {:induction false} TextLeTransitive(a: string, b: string, c: string)
    requires TextLe(a, b) && TextLe(b, c)
    ensures TextLe(a, c)
  {
    if a != [] && b != [] && c != [] {
      if a[0] == b[0] && b[0] == c[0] {
        TextLeTransitive(a[1..], b[1..], c[1..]);
      }
    }
  }
}
