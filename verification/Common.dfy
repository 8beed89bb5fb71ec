/** Result types and text helpers shared by every component. */
module Common {

  datatype Option<+T> = None | Some(value: T)

  datatype Result<+T, +E> = Ok(value: T) | Err(error: E)

  function Min(a: int, b: int): int {
    if a <= b then a else b
  }

  function Max(a: int, b: int): int {
    if a >= b then a else b
  }
}

/** Python's `str.strip` and concatenation of a list of strings. */
module Text {

  /** The characters for which Python's `str.isspace` holds. */
  predicate IsSpace(c: char) {
    var n := c as int;
    || 9 <= n <= 13
    || 28 <= n <= 32
    || n in {0x85, 0xA0, 0x1680, 0x2028, 0x2029, 0x202F, 0x205F, 0x3000}
    || 0x2000 <= n <= 0x200A
  }

  function StripLeft(s: string): string {
    if s != "" && IsSpace(s[0]) then StripLeft(s[1..]) else s
  }

  function StripRight(s: string): string {
    if s != "" && IsSpace(s[|s| - 1]) then StripRight(s[..|s| - 1]) else s
  }

  function Strip(s: string): string {
    StripRight(StripLeft(s))
  }

  predicate OccursAt(s: string, part: string, i: nat) {
    i + |part| <= |s| && s[i..i + |part|] == part
  }

  predicate Contains(s: string, part: string) {
    exists i | 0 <= i <= |s| :: OccursAt(s, part, i)
  }

  /** The stripped texts, without those of white space only. */
  function StripAll(texts: seq<string>): seq<string> {
    if texts == [] then []
    else
      var head := Strip(texts[0]);
      (if head == "" then [] else [head]) + StripAll(texts[1..])
  }

  /** `"".join(parts)`. */
  function Join(parts: seq<string>): string {
    if parts == [] then "" else parts[0] + Join(parts[1..])
  }

  lemma {:induction false} JoinAppend(a: seq<string>, b: seq<string>)
    ensures Join(a + b) == Join(a) + Join(b)
  {
    if a == [] {
      assert a + b == b;
    } else {
      assert (a + b)[1..] == a[1..] + b;
      JoinAppend(a[1..], b);
    }
  }

  lemma JoinOne(s: string)
    ensures Join([s]) == s
  {
    assert [s][1..] == [] && s + "" == s;
  }

  lemma {:induction false} StripRightKeepsHead(s: string)
    ensures StripRight(s) <= s
  {
    if s != "" && IsSpace(s[|s| - 1]) {
      StripRightKeepsHead(s[..|s| - 1]);
    }
  }

  lemma {:induction false} StripRightStops(s: string)
    ensures StripRight(s) == "" || !IsSpace(StripRight(s)[|StripRight(s)| - 1])
  {
    if s != "" && IsSpace(s[|s| - 1]) {
      StripRightStops(s[..|s| - 1]);
    }
  }

  lemma {:induction false} StripLeftStops(s: string)
    ensures StripLeft(s) == "" || !IsSpace(StripLeft(s)[0])
  {
    if s != "" && IsSpace(s[0]) {
      StripLeftStops(s[1..]);
    }
  }

  /** Stripping twice changes nothing, so stored text and re-submitted text compare equal. */
  lemma StripIdempotent(s: string)
    ensures Strip(Strip(s)) == Strip(s)
  {
    var left := StripLeft(s);
    StripLeftStops(s);
    StripRightKeepsHead(left);
    StripRightStops(left);
  }

  lemma {:induction false} StripAllIsStripped(texts: seq<string>)
    ensures forall k :: 0 <= k < |StripAll(texts)| ==>
                          StripAll(texts)[k] != "" && Strip(StripAll(texts)[k]) == StripAll(texts)[k]
  {
    if texts != [] {
      StripIdempotent(texts[0]);
      StripAllIsStripped(texts[1..]);
    }
  }

  /** A beginning of `s` also begins the stripped `s` exactly when it is empty, or begins without white space and does
      not reach into the white space at the end. */
  lemma BeginsStripped(a: string, s: string)
    requires a <= s
    ensures a <= Strip(s) <==> a == "" || (!IsSpace(a[0]) && |a| <= |Strip(s)|)
  {
    StripLeftStops(s);
    StripRightKeepsHead(StripLeft(s));
    if a != "" && !IsSpace(s[0]) {
      assert Strip(s) <= s;
    }
  }

  lemma {:induction false} StripLeftIsShorter(s: string)
    ensures |StripLeft(s)| <= |s| && (|StripLeft(s)| == |s| ==> StripLeft(s) == s)
  {
    if s != "" && IsSpace(s[0]) {
      StripLeftIsShorter(s[1..]);
    }
  }

  lemma StripIsShorter(s: string)
    ensures |Strip(s)| <= |s| && (|Strip(s)| == |s| ==> Strip(s) == s)
  {
    StripLeftIsShorter(s);
    StripRightKeepsHead(StripLeft(s));
  }

  /** The list of stripped texts holds exactly those that are not blank. */
  lemma {:induction false} StripAllHolds(texts: seq<string>, text: string)
    ensures text in StripAll(texts) <==> text != "" && exists i :: 0 <= i < |texts| && Strip(texts[i]) == text
  {
    if texts != [] {
      StripAllHolds(texts[1..], text);
      if i :| 0 <= i < |texts| && Strip(texts[i]) == text && i > 0 {
        assert texts[1..][i - 1] == texts[i];
      }
      if i :| 0 <= i < |texts| - 1 && Strip(texts[1..][i]) == text {
        assert texts[i + 1] == texts[1..][i];
      }
    }
  }

  predicate Blank(s: string) {
    forall i | 0 <= i < |s| :: IsSpace(s[i])
  }

  /** Stripping takes exactly the white space at both ends. */
  lemma StripExactly(s: string) returns (before: string, after: string)
    ensures s == before + Strip(s) + after && Blank(before) && Blank(after)
    ensures Strip(s) != "" ==> !IsSpace(Strip(s)[0]) && !IsSpace(Strip(s)[|Strip(s)| - 1])
  {
    before := LeftSpace(s);
    var left := StripLeft(s);
    after := RightSpace(left);
    StripLeftStops(s);
    StripRightKeepsHead(left);
    StripRightStops(left);
  }

  lemma {:induction false} LeftSpace(s: string) returns (before: string)
    ensures s == before + StripLeft(s) && Blank(before)
  {
    if s != "" && IsSpace(s[0]) {
      var rest := LeftSpace(s[1..]);
      before := [s[0]] + rest;
    } else {
      before := "";
    }
  }

  lemma {:induction false} RightSpace(s: string) returns (after: string)
    ensures s == StripRight(s) + after && Blank(after)
  {
    if s != "" && IsSpace(s[|s| - 1]) {
      var rest := RightSpace(s[..|s| - 1]);
      after := rest + [s[|s| - 1]];
    } else {
      after := "";
    }
  }

  /** Among the ASCII characters white space is the tab, line and page controls, the four separators and the blank. */
  lemma AsciiSpace(c: char)
    requires c as int < 128
    ensures IsSpace(c) <==> c as int in {9, 10, 11, 12, 13, 28, 29, 30, 31, 32}
  {
  }

  /** The stripped texts keep their order. */
  lemma {:induction false} StripAllAppend(a: seq<string>, b: seq<string>)
    ensures StripAll(a + b) == StripAll(a) + StripAll(b)
  {
    if a == [] {
      assert a + b == b;
    } else {
      assert (a + b)[0] == a[0] && (a + b)[1..] == a[1..] + b;
      StripAllAppend(a[1..], b);
    }
  }

  lemma StripAllOne(text: string)
    ensures StripAll([text]) == if Strip(text) == "" then [] else [Strip(text)]
  {
    assert [text][1..] == [];
  }
}
