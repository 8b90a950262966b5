/** The string helpers that routing and tracing rely on: TrimSpace, ToLower and HasPrefix. */
module Text {

  /** The white space that TrimSpace strips. */
  predicate IsSpace(c: char) {
    || '\t' <= c <= '\r'
    || c == ' ' || c == '\U{85}' || c == '\U{A0}' || c == '\U{1680}'
    || '\U{2000}' <= c <= '\U{200A}'
    || c == '\U{2028}' || c == '\U{2029}' || c == '\U{202F}' || c == '\U{205F}' || c == '\U{3000}'
  }

  function TrimLeft(s: string): string {
    if s != "" && IsSpace(s[0]) then TrimLeft(s[1..]) else s
  }

  function TrimRight(s: string): string {
    if s != "" && IsSpace(s[|s| - 1]) then TrimRight(s[..|s| - 1]) else s
  }

  function Trim(s: string): string {
    TrimRight(TrimLeft(s))
  }

  /** Lower-cases the ASCII letters. */
  function LowerChar(c: char): char {
    if 'A' <= c <= 'Z' then c - 'A' + 'a' else c
  }

  function ToLower(s: string): string {
    seq(|s|, i requires 0 <= i < |s| => LowerChar(s[i]))
  }

  predicate HasPrefix(s: string, prefix: string) {
    prefix <= s
  }

  ghost predicate IsTrimmed(s: string) {
    s == "" || (!IsSpace(s[0]) && !IsSpace(s[|s| - 1]))
  }

  lemma {:induction false} TrimLeftTrims(s: string)
    ensures TrimLeft(s) == "" || !IsSpace(TrimLeft(s)[0])
  {
    if s != "" && IsSpace(s[0]) {
      TrimLeftTrims(s[1..]);
    }
  }

  lemma {:induction false} TrimRightTrims(s: string)
    ensures TrimRight(s) <= s
    ensures TrimRight(s) == "" || !IsSpace(TrimRight(s)[|TrimRight(s)| - 1])
  {
    if s != "" && IsSpace(s[|s| - 1]) {
      TrimRightTrims(s[..|s| - 1]);
    }
  }

  lemma TrimYieldsTrimmed(s: string)
    ensures IsTrimmed(Trim(s))
  {
    TrimLeftTrims(s);
    TrimRightTrims(TrimLeft(s));
  }

  ghost predicate IsBlank(s: string) {
    forall c :: c in s ==> IsSpace(c)
  }

  lemma {:induction false} TrimLeftCuts(s: string) returns (n: nat)
    ensures n <= |s| && TrimLeft(s) == s[n..] && IsBlank(s[..n])
  {
    n := 0;
    if s != "" && IsSpace(s[0]) {
      var m := TrimLeftCuts(s[1..]);
      n := m + 1;
      assert s[..n] == [s[0]] + s[1..][..m];
    }
  }

  lemma {:induction false} TrimRightCuts(s: string) returns (n: nat)
    ensures n <= |s| && TrimRight(s) == s[..n] && IsBlank(s[n..])
  {
    n := |s|;
    if s != "" && IsSpace(s[|s| - 1]) {
      n := TrimRightCuts(s[..|s| - 1]);
      assert s[n..] == s[..|s| - 1][n..] + [s[|s| - 1]];
    }
  }

  /** What trimming takes away is blank; what it leaves neither begins nor ends with white space. */
  lemma TrimCuts(s: string) returns (m: nat, n: nat)
    ensures m <= n <= |s| && Trim(s) == s[m..n] && IsBlank(s[..m]) && IsBlank(s[n..])
    ensures IsTrimmed(s[m..n])
  {
    m := TrimLeftCuts(s);
    var k := TrimRightCuts(s[m..]);
    n := m + k;
    assert s[m..][..k] == s[m..n] && s[m..][k..] == s[n..];
    TrimYieldsTrimmed(s);
  }

  /** Trimming leaves nothing exactly of blank strings, and a trimmed string as it is. */
  lemma TrimIsEmptyIff(s: string)
    ensures Trim(s) == "" <==> IsBlank(s)
    ensures IsTrimmed(s) ==> Trim(s) == s
  {
    var m, n := TrimCuts(s);
    assert s == s[..m] + s[m..n] + s[n..];
    if m < n {
      assert s[m] in s && s[m..n][0] == s[m];
    }
  }

  /** White space by code point: control characters, the space, and the spaces and separators of Unicode. */
  lemma SpaceCodes(c: char)
    ensures
      var code := c as int;
      IsSpace(c) <==>
      || code in {9, 10, 11, 12, 13, 32, 133, 160, 5760, 8232, 8233, 8239, 8287, 12288}
      || (8192 <= code && code < 8203)
  {
  }

  /** Lower-casing moves the letters from 65 to 90 by 32 and leaves every other character alone. */
  lemma LowerMovesLetters(s: string, i: nat)
    requires i < |s|
    ensures |ToLower(s)| == |s|
    ensures ToLower(s)[i] as int == s[i] as int + if 65 <= s[i] as int <= 90 then 32 else 0
  {
  }

  lemma TrimIdempotent(s: string)
    ensures Trim(Trim(s)) == Trim(s)
  {
    TrimYieldsTrimmed(s);
  }

  lemma LowerStaysTrimmed(s: string)
    ensures Trim(ToLower(Trim(s))) == ToLower(Trim(s))
  {
    TrimYieldsTrimmed(s);
    assert IsTrimmed(ToLower(Trim(s)));
  }

  /** Trimming and lower-casing a name that already went through both changes nothing. */
  lemma LowerTrimIdempotent(s: string)
    ensures ToLower(Trim(ToLower(Trim(s)))) == ToLower(Trim(s))
  {
    TrimYieldsTrimmed(s);
    assert IsTrimmed(ToLower(Trim(s)));
  }
}
