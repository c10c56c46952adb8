/**
 * The textual form of a UUID, as Python's `uuid` module writes (`str(u)`:
 * 32 lower-case hex digits grouped 8-4-4-4-12) and reads it (`uuid.UUID(s)`:
 * braces stripped from both ends, hyphens removed, exactly 32 hex digits).
 */
module UuidText {
  import opened Wrappers
  import opened UserModel

  function Pow16(k: nat): (p: nat)
    ensures p > 0
  {
    if k == 0 then 1 else 16 * Pow16(k - 1)
  }

  lemma {:induction false} Pow16Add(a: nat, b: nat)
    ensures Pow16(a + b) == Pow16(a) * Pow16(b)
  {
    if a > 0 {
      Pow16Add(a - 1, b);
    }
  }

  lemma Pow16Is128Bits()
    ensures Pow16(32) == UUID_BOUND
  {
    assert Pow16(4) == 0x1_0000;
    Pow16Add(4, 4);
    Pow16Add(8, 8);
    Pow16Add(16, 16);
  }

  predicate IsHexChar(c: char)
  {
    '0' <= c <= '9' || 'a' <= c <= 'f' || 'A' <= c <= 'F'
  }

  predicate IsHex(s: string)
  {
    forall i :: 0 <= i < |s| ==> IsHexChar(s[i])
  }

  function HexValue(c: char): (d: nat)
    requires IsHexChar(c)
    ensures d < 16
  {
    if '0' <= c <= '9' then c as int - '0' as int
    else if 'a' <= c <= 'f' then c as int - 'a' as int + 10
    else c as int - 'A' as int + 10
  }

  function HexDigit(d: nat): (c: char)
    requires d < 16
    ensures IsHexChar(c) && HexValue(c) == d
    ensures c != '-' && c != '{' && c != '}'
  {
    if d < 10 then ('0' as int + d) as char else ('a' as int + d - 10) as char
  }

  /** The `k` lowest hex digits of `n`, most significant first. */
  function HexDigits(n: nat, k: nat): (s: string)
    ensures |s| == k && IsHex(s)
    ensures forall i :: 0 <= i < |s| ==> s[i] != '-' && s[i] != '{' && s[i] != '}'
  {
    if k == 0 then [] else HexDigits(n / 16, k - 1) + [HexDigit(n % 16)]
  }

  /** `int(s, 16)` for a string of hex digits. */
  function ParseHex(s: string): (n: nat)
    requires IsHex(s)
    ensures n < Pow16(|s|)
  {
    if s == [] then 0 else ParseHex(s[..|s| - 1]) * 16 + HexValue(s[|s| - 1])
  }

  lemma {:induction false} ParseHexDigits(n: nat, k: nat)
    requires n < Pow16(k)
    ensures ParseHex(HexDigits(n, k)) == n
  {
    if k > 0 {
      var s := HexDigits(n, k);
      assert s[..|s| - 1] == HexDigits(n / 16, k - 1);
      ParseHexDigits(n / 16, k - 1);
    }
  }

  /** `str(u)`. */
  function Str(u: Uuid): (s: string)
    ensures |s| == 36
  {
    var h := HexDigits(u, 32);
    h[..8] + "-" + h[8..12] + "-" + h[12..16] + "-" + h[16..20] + "-" + h[20..]
  }

  predicate IsBrace(c: char) { c == '{' || c == '}' }

  /** A character `uuid.UUID` neither strips nor reads as a digit. */
  predicate IsForeign(c: char)
  {
    !IsHexChar(c) && c != '-' && !IsBrace(c)
  }

  /** The hex digits of `s`, in order, with every other character dropped. */
  function HexChars(s: string): (r: string)
    ensures IsHex(r)
  {
    if s == [] then [] else (if IsHexChar(s[0]) then [s[0]] else []) + HexChars(s[1..])
  }

  lemma {:induction false} HexCharsAppend(a: string, b: string)
    ensures HexChars(a + b) == HexChars(a) + HexChars(b)
    decreases |a|
  {
    if a != [] {
      assert (a + b)[1..] == a[1..] + b;
      HexCharsAppend(a[1..], b);
    } else {
      assert a + b == b;
    }
  }

  lemma {:induction false} HexCharsOfHex(h: string)
    requires IsHex(h)
    ensures HexChars(h) == h
    decreases |h|
  {
    if h != [] {
      HexCharsOfHex(h[1..]);
    }
  }

  function StripLeadingBraces(s: string): (r: string)
    ensures |r| <= |s|
  {
    if s != [] && IsBrace(s[0]) then StripLeadingBraces(s[1..]) else s
  }

  function StripTrailingBraces(s: string): (r: string)
    ensures |r| <= |s|
  {
    if s != [] && IsBrace(s[|s| - 1]) then StripTrailingBraces(s[..|s| - 1]) else s
  }

  function RemoveHyphens(s: string): (r: string)
    ensures |r| <= |s|
    ensures forall i :: 0 <= i < |r| ==> r[i] != '-'
  {
    if s == [] then [] else (if s[0] == '-' then [] else [s[0]]) + RemoveHyphens(s[1..])
  }

  /** Stripping braces from the front keeps every hex digit and every foreign character. */
  lemma {:induction false} StripLeadingKeeps(s: string)
    ensures HexChars(StripLeadingBraces(s)) == HexChars(s)
    ensures (exists i :: 0 <= i < |s| && IsForeign(s[i])) ==>
      exists j :: 0 <= j < |StripLeadingBraces(s)| && IsForeign(StripLeadingBraces(s)[j])
    decreases |s|
  {
    if s != [] && IsBrace(s[0]) {
      StripLeadingKeeps(s[1..]);
      if exists i :: 0 <= i < |s| && IsForeign(s[i]) {
        var i :| 0 <= i < |s| && IsForeign(s[i]);
        assert IsForeign(s[1..][i - 1]);
      }
    }
  }

  /** Stripping braces from the back keeps every hex digit and every foreign character. */
  lemma {:induction false} StripTrailingKeeps(s: string)
    ensures HexChars(StripTrailingBraces(s)) == HexChars(s)
    ensures (exists i :: 0 <= i < |s| && IsForeign(s[i])) ==>
      exists j :: 0 <= j < |StripTrailingBraces(s)| && IsForeign(StripTrailingBraces(s)[j])
    decreases |s|
  {
    if s != [] && IsBrace(s[|s| - 1]) {
      var init := s[..|s| - 1];
      StripTrailingKeeps(init);
      assert s == init + [s[|s| - 1]];
      HexCharsAppend(init, [s[|s| - 1]]);
      assert HexChars([s[|s| - 1]]) == [];
      if exists i :: 0 <= i < |s| && IsForeign(s[i]) {
        var i :| 0 <= i < |s| && IsForeign(s[i]);
        assert IsForeign(init[i]);
      }
    }
  }

  /** Removing hyphens keeps every hex digit and every foreign character. */
  lemma {:induction false} RemoveHyphensKeeps(s: string)
    ensures HexChars(RemoveHyphens(s)) == HexChars(s)
    ensures (exists i :: 0 <= i < |s| && IsForeign(s[i])) ==>
      exists j :: 0 <= j < |RemoveHyphens(s)| && IsForeign(RemoveHyphens(s)[j])
    decreases |s|
  {
    if s != [] {
      var head := if s[0] == '-' then [] else [s[0]];
      RemoveHyphensKeeps(s[1..]);
      assert s == [s[0]] + s[1..];
      HexCharsAppend([s[0]], s[1..]);
      HexCharsAppend(head, RemoveHyphens(s[1..]));
      assert HexChars(head) == HexChars([s[0]]);
      if exists i :: 0 <= i < |s| && IsForeign(s[i]) {
        var i :| 0 <= i < |s| && IsForeign(s[i]);
        if i == 0 {
          assert IsForeign(RemoveHyphens(s)[0]);
        } else {
          assert IsForeign(s[1..][i - 1]);
          var j :| 0 <= j < |RemoveHyphens(s[1..])| && IsForeign(RemoveHyphens(s[1..])[j]);
          assert IsForeign(RemoveHyphens(s)[|head| + j]);
        }
      }
    }
  }

  /** `uuid.UUID(s)`, with `None` where it raises `ValueError`. */
  function Parse(s: string): (r: Option<Uuid>)
    ensures |s| < 32 ==> r.None?
    ensures (exists i :: 0 <= i < |s| && IsForeign(s[i])) ==> r.None?
    ensures r.Some? ==> |HexChars(s)| == 32 && r.value == ParseHex(HexChars(s))
  {
    var h := RemoveHyphens(StripTrailingBraces(StripLeadingBraces(s)));
    StripLeadingKeeps(s);
    StripTrailingKeeps(StripLeadingBraces(s));
    RemoveHyphensKeeps(StripTrailingBraces(StripLeadingBraces(s)));
    if |h| == 32 && IsHex(h) then
      HexCharsOfHex(h);
      Pow16Is128Bits();
      Some(ParseHex(h) as Uuid)
    else None
  }

  lemma {:induction false} RemoveHyphensAppend(a: string, b: string)
    ensures RemoveHyphens(a + b) == RemoveHyphens(a) + RemoveHyphens(b)
    decreases |a|
  {
    if a != [] {
      assert (a + b)[1..] == a[1..] + b;
      RemoveHyphensAppend(a[1..], b);
    } else {
      assert a + b == b;
    }
  }

  lemma {:induction false} RemoveHyphensNone(s: string)
    requires forall i :: 0 <= i < |s| ==> s[i] != '-'
    ensures RemoveHyphens(s) == s
    decreases |s|
  {
    if s != [] {
      RemoveHyphensNone(s[1..]);
    }
  }

  lemma HyphenJoin(x: string, y: string)
    ensures RemoveHyphens(x + "-" + y) == RemoveHyphens(x) + RemoveHyphens(y)
  {
    RemoveHyphensAppend(x, "-" + y);
    RemoveHyphensAppend("-", y);
    assert x + "-" + y == x + ("-" + y);
    assert RemoveHyphens("-") == [];
  }

  /** Removing the hyphens from five hyphen-free groups joined by hyphens leaves the groups side by side. */
  lemma HyphenGroups(a: string, b: string, c: string, d: string, e: string)
    requires forall i :: 0 <= i < |a| ==> a[i] != '-'
    requires forall i :: 0 <= i < |b| ==> b[i] != '-'
    requires forall i :: 0 <= i < |c| ==> c[i] != '-'
    requires forall i :: 0 <= i < |d| ==> d[i] != '-'
    requires forall i :: 0 <= i < |e| ==> e[i] != '-'
    ensures RemoveHyphens(a + "-" + b + "-" + c + "-" + d + "-" + e) == a + b + c + d + e
  {
    RemoveHyphensNone(a); RemoveHyphensNone(b); RemoveHyphensNone(c); RemoveHyphensNone(d); RemoveHyphensNone(e);
    HyphenJoin(a + "-" + b + "-" + c + "-" + d, e);
    HyphenJoin(a + "-" + b + "-" + c, d);
    HyphenJoin(a + "-" + b, c);
    HyphenJoin(a, b);
  }

  /** Removing the hyphens from the text of a UUID leaves its 32 hex digits. */
  lemma StrHex(u: Uuid)
    ensures RemoveHyphens(Str(u)) == HexDigits(u, 32)
  {
    var h := HexDigits(u, 32);
    HyphenGroups(h[..8], h[8..12], h[12..16], h[16..20], h[20..]);
    assert h[..8] + h[8..12] + h[12..16] + h[16..20] + h[20..] == h;
  }

  /** Reading back the text of a UUID gives the same UUID. */
  lemma ParseStr(u: Uuid)
    ensures Parse(Str(u)) == Some(u)
  {
    var h := HexDigits(u, 32);
    var s := Str(u);
    assert s[0] == h[0] && s[35] == h[31];
    assert StripLeadingBraces(s) == s;
    assert StripTrailingBraces(s) == s;
    StrHex(u);
    Pow16Is128Bits();
    ParseHexDigits(u, 32);
  }

  /** A hex digit is neither a brace nor a hyphen, so the two stripping steps leave a hex string alone. */
  lemma HexUnchanged(h: string)
    requires IsHex(h)
    ensures StripLeadingBraces(h) == h && StripTrailingBraces(h) == h && RemoveHyphens(h) == h
  {
    RemoveHyphensNone(h);
  }

  /** Thirty-two hex digits without hyphens (`uuid.UUID(u.hex)`) read as their value; any other length is refused. */
  lemma ParseHexForm(h: string)
    requires IsHex(h)
    ensures |h| == 32 ==> Parse(h) == Some(ParseHex(h))
    ensures |h| != 32 ==> Parse(h) == None
  {
    HexUnchanged(h);
    Pow16Is128Bits();
  }

  /** The braced form `{...}` of the text of a UUID reads back as that UUID. */
  lemma ParseBraced(u: Uuid)
    ensures Parse("{" + Str(u) + "}") == Some(u)
  {
    var h := HexDigits(u, 32);
    var s := Str(u);
    var b := "{" + s + "}";
    assert s[0] == h[0] && s[35] == h[31];
    assert b[1..] == s + "}";
    assert StripLeadingBraces(b) == StripLeadingBraces(s + "}");
    assert (s + "}")[0] == s[0];
    assert StripLeadingBraces(s + "}") == s + "}";
    assert (s + "}")[..|s|] == s;
    assert StripTrailingBraces(s + "}") == StripTrailingBraces(s);
    assert StripTrailingBraces(s) == s;
    StrHex(u);
    Pow16Is128Bits();
    ParseHexDigits(u, 32);
  }
}
