/** Clipboard content and its identity (`crates/cled-clipboard/src/content.rs`,
    `crates/cled-sync/src/item.rs`): line endings, trailing whitespace, and what is hashed. */
module Content {
  import opened Bytes
  import opened Wrappers

  datatype Content = Text(text: string) | Image(width: nat, height: nat, rgba: seq<byte>)

  // ---- Line endings ----

  function ReplaceCrLf(s: string): string {
    if |s| < 2 then s
    else if s[0] == '\r' && s[1] == '\n' then ['\n'] + ReplaceCrLf(s[2..])
    else [s[0]] + ReplaceCrLf(s[1..])
  }

  function ReplaceCr(s: string): string {
    if s == [] then []
    else [if s[0] == '\r' then '\n' else s[0]] + ReplaceCr(s[1..])
  }

  /** Two passes over the text, as written. */
  function NormalizeLineEndings(s: string): string {
    if '\r' in s then ReplaceCr(ReplaceCrLf(s)) else s
  }

  /** One pass: each `\r\n`, `\r` or `\n` ends a line. */
  function Lines(s: string): string {
    if s == [] then []
    else if s[0] == '\r' then ['\n'] + Lines(if |s| > 1 && s[1] == '\n' then s[2..] else s[1..])
    else [s[0]] + Lines(s[1..])
  }

  lemma {:induction false} TwoPassesAreOne(s: string)
    ensures ReplaceCr(ReplaceCrLf(s)) == Lines(s)
  {
    if |s| >= 2 {
      if s[0] == '\r' && s[1] == '\n' {
        TwoPassesAreOne(s[2..]);
      } else {
        TwoPassesAreOne(s[1..]);
      }
    } else if |s| == 1 {
      assert s[1..] == [];
    }
  }

  lemma {:induction false} LinesWithoutCr(s: string)
    requires '\r' !in s
    ensures Lines(s) == s
  {
    if s != [] {
      LinesWithoutCr(s[1..]);
    }
  }

  lemma NormalizeIsOnePass(s: string)
    ensures NormalizeLineEndings(s) == Lines(s)
  {
    if '\r' in s {
      TwoPassesAreOne(s);
    } else {
      LinesWithoutCr(s);
    }
  }

  lemma {:induction false} LinesHaveNoCr(s: string)
    ensures '\r' !in Lines(s)
  {
    if s != [] {
      LinesHaveNoCr(if s[0] == '\r' && |s| > 1 && s[1] == '\n' then s[2..] else s[1..]);
    }
  }

  /** Normalized text has no carriage return, and normalizing it again changes nothing. */
  lemma NormalizeIdempotent(s: string)
    ensures '\r' !in NormalizeLineEndings(s)
    ensures NormalizeLineEndings(NormalizeLineEndings(s)) == NormalizeLineEndings(s)
  {
    NormalizeIsOnePass(s);
    LinesHaveNoCr(s);
  }

  /** `s` with a carriage return put before those of its newlines that `windows` picks. */
  function Rewrite(s: string, windows: seq<bool>): string
    requires |windows| == |s|
  {
    if s == [] then []
    else (if s[0] == '\n' && windows[0] then ['\r', '\n'] else [s[0]]) + Rewrite(s[1..], windows[1..])
  }

  /** The same text handed back with any of its newlines as `\r\n` normalizes to itself, so an echo
      is recognized. */
  lemma {:induction false} NormalizeUndoesRewriting(s: string, windows: seq<bool>)
    requires |windows| == |s| && '\r' !in s
    ensures NormalizeLineEndings(Rewrite(s, windows)) == s
  {
    NormalizeIsOnePass(Rewrite(s, windows));
    LinesUndoRewriting(s, windows);
  }

  lemma {:induction false} LinesUndoRewriting(s: string, windows: seq<bool>)
    requires |windows| == |s| && '\r' !in s
    ensures Lines(Rewrite(s, windows)) == s
  {
    if s != [] {
      LinesUndoRewriting(s[1..], windows[1..]);
      var rest := Rewrite(s[1..], windows[1..]);
      if s[0] == '\n' && windows[0] {
        assert Rewrite(s, windows)[2..] == rest;
      } else {
        assert Rewrite(s, windows)[1..] == rest;
      }
    }
  }

  // ---- Identity ----

  predicate IsWhitespace(c: char) {
    || '\U{0009}' <= c <= '\U{000D}' || c == '\U{0020}' || c == '\U{0085}' || c == '\U{00A0}' || c == '\U{1680}'
    || '\U{2000}' <= c <= '\U{200A}' || c == '\U{2028}' || c == '\U{2029}' || c == '\U{202F}' || c == '\U{205F}'
         || c == '\U{3000}'
  }

  function TrimEnd(s: string): string {
    if s != [] && IsWhitespace(s[|s| - 1]) then TrimEnd(s[..|s| - 1]) else s
  }

  /** What two contents must share to count as the same copy. It stands for the content hash, which
      is taken to tell different identities apart. */
  datatype Identity = TextIdentity(text: string) | ImageIdentity(width: nat, height: nat, rgba: seq<byte>)

  function IdentityOf(c: Content): Identity {
    match c
    case Text(text) => TextIdentity(TrimEnd(text))
    case Image(w, h, rgba) => ImageIdentity(w, h, rgba)
  }

  predicate AllWhitespace(s: string) {
    forall i :: 0 <= i < |s| ==> IsWhitespace(s[i])
  }

  lemma {:induction false} TrimmedTail(s: string)
    ensures TrimEnd(s) <= s && AllWhitespace(s[|TrimEnd(s)|..])
    ensures TrimEnd(s) != [] ==> !IsWhitespace(TrimEnd(s)[|TrimEnd(s)| - 1])
  {
    if s != [] && IsWhitespace(s[|s| - 1]) {
      var n := |s| - 1;
      TrimmedTail(s[..n]);
      var k := |TrimEnd(s)|;
      forall i | 0 <= i < |s[k..]|
        ensures IsWhitespace(s[k..][i])
      {
        assert k + i < n ==> s[..n][k..][i] == s[k + i];
      }
    }
  }

  lemma {:induction false} TrimWhitespaceTail(s: string, tail: string)
    requires AllWhitespace(tail)
    ensures TrimEnd(s + tail) == TrimEnd(s)
  {
    if tail == [] {
      assert s + tail == s;
    } else {
      var n := |tail| - 1;
      TrimWhitespaceTail(s, tail[..n]);
      assert (s + tail)[..|s| + n] == s + tail[..n];
    }
  }

  lemma TrimPrefix(s: string, k: nat)
    requires k <= |s| && AllWhitespace(s[k..])
    ensures TrimEnd(s) == TrimEnd(s[..k])
  {
    TrimWhitespaceTail(s[..k], s[k..]);
    assert s == s[..k] + s[k..];
  }

  /** Two texts are the same copy exactly when they differ only in whitespace at the end. */
  lemma SameTextIffTrailingWhitespace(a: string, b: string)
    ensures IdentityOf(Text(a)) == IdentityOf(Text(b)) <==>
      exists k: nat :: k <= |a| && k <= |b| && a[..k] == b[..k] && AllWhitespace(a[k..]) && AllWhitespace(b[k..])
  {
    TrimmedTail(a);
    TrimmedTail(b);
    if TrimEnd(a) == TrimEnd(b) {
      var k := |TrimEnd(a)|;
      assert a[..k] == TrimEnd(a) && b[..k] == TrimEnd(b);
    }
    if k: nat :| k <= |a| && k <= |b| && a[..k] == b[..k] && AllWhitespace(a[k..]) && AllWhitespace(b[k..]) {
      TrimPrefix(a, k);
      TrimPrefix(b, k);
    }
  }

  // ---- Images ----

  const USIZE_LIMIT := 0x1_0000_0000_0000_0000

  /** The buffer length of an image, unless it overflows. */
  function RgbaLen(width: nat, height: nat): Option<nat> {
    if width * height >= USIZE_LIMIT then None
    else if width * height * 4 >= USIZE_LIMIT then None
    else Some(width * height * 4)
  }

  function FromRgba(width: nat, height: nat, rgba: seq<byte>): (r: Option<Content>)
    requires |rgba| < USIZE_LIMIT
    ensures r.Some? <==> |rgba| == width * height * 4
    ensures r.Some? ==> r.value == Image(width, height, rgba)
  {
    if Some(|rgba|) == RgbaLen(width, height) then Some(Image(width, height, rgba)) else None
  }
}
