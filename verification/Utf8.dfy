/** What the byte rule of UTF-8 accepts: the encodings of Unicode text, and nothing else. */
module Utf8 {
  import opened Bytes
  import opened Registry

  /** A code point that is not a surrogate. */
  type Scalar = c: int | 0 <= c < 0xD800 || 0xE000 <= c < 0x11_0000

  function Continues(n: nat): Byte
    requires n < 64
  {
    0x80 + n
  }

  function Encode(c: Scalar): (s: seq<Byte>)
    ensures 1 <= |s| <= 4
  {
    if c < 0x80 then [c]
    else if c < 0x800 then [0xC0 + c / 64, Continues(c % 64)]
    else if c < 0x1_0000 then [0xE0 + c / 4096, Continues(c / 64 % 64), Continues(c % 64)]
    else [0xF0 + c / 262144, Continues(c / 4096 % 64), Continues(c / 64 % 64), Continues(c % 64)]
  }

  function EncodeAll(text: seq<Scalar>): seq<Byte> {
    if text == [] then [] else Encode(text[0]) + EncodeAll(text[1..])
  }

  lemma HeadOfEncode(c: Scalar, rest: seq<Byte>)
    ensures Utf8Head(Encode(c) + rest) == |Encode(c)|
  {
  }

  /** Every text's encoding is accepted. */
  lemma {:induction false} TextIsAccepted(text: seq<Scalar>)
    ensures Registry.Utf8(EncodeAll(text))
  {
    if text != [] {
      var first, rest := Encode(text[0]), EncodeAll(text[1..]);
      TextIsAccepted(text[1..]);
      HeadOfEncode(text[0], rest);
      assert (first + rest)[|first|..] == rest;
    }
  }

  lemma Scalar2(a: Byte, b: Byte) returns (c: Scalar)
    requires 0xC2 <= a <= 0xDF && Continuation(b)
    ensures Encode(c) == [a, b]
  {
    c := (a - 0xC0) * 64 + (b - 0x80);
  }

  lemma Scalar3(a: Byte, b: Byte, d: Byte) returns (c: Scalar)
    requires 0xE0 <= a <= 0xEF && Continuation(b) && Continuation(d)
    requires (a == 0xE0 ==> b >= 0xA0) && (a == 0xED ==> b <= 0x9F)
    ensures Encode(c) == [a, b, d]
  {
    var n := (a - 0xE0) * 4096 + (b - 0x80) * 64 + (d - 0x80);
    assert 0x800 <= n < 0x1_0000 && (n < 0xD800 || 0xE000 <= n);
    c := n;
    assert c / 64 == (a - 0xE0) * 64 + (b - 0x80);
  }

  lemma Scalar4(a: Byte, b: Byte, d: Byte, e: Byte) returns (c: Scalar)
    requires 0xF0 <= a <= 0xF4 && Continuation(b) && Continuation(d) && Continuation(e)
    requires (a == 0xF0 ==> b >= 0x90) && (a == 0xF4 ==> b <= 0x8F)
    ensures Encode(c) == [a, b, d, e]
  {
    var n := (a - 0xF0) * 262144 + (b - 0x80) * 4096 + (d - 0x80) * 64 + (e - 0x80);
    assert 0x1_0000 <= n < 0x11_0000;
    c := n;
    assert c / 64 == (a - 0xF0) * 4096 + (b - 0x80) * 64 + (d - 0x80);
    assert c / 4096 == (a - 0xF0) * 64 + (b - 0x80);
  }

  lemma ScalarOfHead(s: seq<Byte>) returns (c: Scalar)
    requires s != [] && Utf8Head(s) > 0
    ensures Encode(c) == s[..Utf8Head(s)]
  {
    var n := Utf8Head(s);
    if n == 1 {
      c := s[0];
    } else if n == 2 {
      c := Scalar2(s[0], s[1]);
    } else if n == 3 {
      c := Scalar3(s[0], s[1], s[2]);
    } else {
      c := Scalar4(s[0], s[1], s[2], s[3]);
    }
  }

  /** Whatever is accepted is the encoding of some text: no overlong form, surrogate or stray byte. */
  lemma {:induction false} AcceptedIsText(s: seq<Byte>) returns (text: seq<Scalar>)
    requires Registry.Utf8(s)
    ensures EncodeAll(text) == s
    decreases |s|
  {
    if s == [] {
      text := [];
    } else {
      var n := Utf8Head(s);
      var c := ScalarOfHead(s);
      var rest := AcceptedIsText(s[n..]);
      text := [c] + rest;
      assert text[1..] == rest && s == s[..n] + s[n..];
    }
  }

  /** A blacklist reason in any language is read: the gate, the hook and the keeper all report the entry's flag. */
  lemma AnyTextIsRead(text: seq<Scalar>, e: BlacklistEntry, issuer: Address, tail: seq<Byte>)
    requires e.reason == EncodeAll(text) && |e.reason| < 0x1_0000_0000
    ensures var data := SerializeBlacklist(e) + tail;
      && GateReadBlacklist(Account(issuer, data), issuer, e.mint, e.target)
           == Some(if e.active then Active else Inactive)
      && KeeperReadBlacklist(Some(Account(issuer, data)), issuer, e.mint, e.target)
         == (if e.active then ReadActive else ReadInactive)
      && HookReadBlacklist(data, e.mint) == (if e.active then Rejects else Passes)
  {
    TextIsAccepted(text);
    BlacklistRoundTrip(e, issuer, tail);
  }
}
