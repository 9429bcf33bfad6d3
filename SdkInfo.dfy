/**
 * Discovery of a container's instrumentation key (ikey) from the content of the
 * SDK info file read inside the container (`_get_container_sdk_info` and
 * `_get_container_sdk_ikey`). The command itself is foreign I/O: its outcome is
 * an input, either the text it printed or a wrapper error.
 */
module SdkInfo {
  import opened Wrappers

  /** Outcome of running the `cat` command inside a container. */
  datatype CommandOutput = Output(text: string) | WrapperError

  /** The separator between the name and the value in the SDK info file. */
  const Separator: char := '='

  /** Python's `str.isspace`: the code points `str.strip()` removes. */
  predicate IsSpace(c: char) {
    var n := c as int;
    || 0x09 <= n <= 0x0D || 0x1C <= n <= 0x20 || n == 0x85 || n == 0xA0
    || n == 0x1680 || 0x2000 <= n <= 0x200A || n == 0x2028 || n == 0x2029
    || n == 0x202F || n == 0x205F || n == 0x3000
  }

  predicate AllSpace(s: string) {
    forall k :: 0 <= k < |s| ==> IsSpace(s[k])
  }

  /** The end of the run of whitespace that starts at index `i`. */
  function SpaceRunEnd(s: string, i: nat): (j: nat)
    requires i <= |s|
    ensures i <= j <= |s|
    ensures forall k :: i <= k < j ==> IsSpace(s[k])
    ensures j == |s| || !IsSpace(s[j])
    decreases |s| - i
  {
    if i < |s| && IsSpace(s[i]) then SpaceRunEnd(s, i + 1) else i
  }

  /** The start of the run of whitespace that ends just before index `j`. */
  function SpaceRunStart(s: string, j: nat): (i: nat)
    requires j <= |s|
    ensures i <= j
    ensures forall k :: i <= k < j ==> IsSpace(s[k])
    ensures i == 0 || !IsSpace(s[i - 1])
  {
    if j > 0 && IsSpace(s[j - 1]) then SpaceRunStart(s, j - 1) else j
  }

  /**
   * `r` is `s` with its leading and trailing whitespace removed: the stretch of
   * `s` that starts where the leading whitespace ends, with only whitespace
   * before and after it; empty exactly when `s` is all whitespace, neither
   * starting nor ending with whitespace, and keeping every other character of
   * `s` while adding none.
   */
  predicate Stripped(s: string, r: string) {
    StrippedAt(s, SpaceRunEnd(s, 0), r)
  }

  /** `Stripped`, with the end of the leading whitespace given as `a`. */
  predicate StrippedAt(s: string, a: nat, r: string) {
    && a + |r| <= |s| && r == s[a..a + |r|] && AllSpace(s[..a]) && AllSpace(s[a + |r|..])
    && (r == [] <==> AllSpace(s))
    && (r != [] ==> !IsSpace(r[0]) && !IsSpace(r[|r| - 1]))
    && (forall c :: !IsSpace(c) ==> (c in r <==> c in s))
  }

  /** Python's `str.strip()` with no argument. */
  function Strip(s: string): (r: string)
    ensures Stripped(s, r)
  {
    var a := SpaceRunEnd(s, 0);
    var b := SpaceRunStart(s, |s|);
    var r := if a < b then s[a..b] else [];
    StripMiddle(s, a, b, r);
    r
  }

  /** What lies between a leading whitespace run ending at `a` and a trailing one starting at `b`. */
  lemma StripMiddle(s: string, a: nat, b: nat, r: string)
    requires a <= |s| && b <= |s| && a == SpaceRunEnd(s, 0)
    requires forall k :: 0 <= k < a ==> IsSpace(s[k])
    requires a == |s| || !IsSpace(s[a])
    requires forall k :: b <= k < |s| ==> IsSpace(s[k])
    requires b == 0 || !IsSpace(s[b - 1])
    requires r == if a < b then s[a..b] else []
    ensures Stripped(s, r)
  {
    if a < b {
      StripInner(s, a, b);
    } else {
      assert a == |s|;
      StripAllSpace(s);
    }
  }

  /** A non-empty middle: `s[a..b]` between the two whitespace runs. */
  lemma StripInner(s: string, a: nat, b: nat)
    requires a < b <= |s|
    requires forall k :: 0 <= k < a ==> IsSpace(s[k])
    requires !IsSpace(s[a])
    requires forall k :: b <= k < |s| ==> IsSpace(s[k])
    requires !IsSpace(s[b - 1])
    ensures StrippedAt(s, a, s[a..b])
  {
    var r := s[a..b];
    assert a + |r| == b && r == s[a..a + |r|];
    assert AllSpace(s[..a]) && AllSpace(s[b..]);
    assert r[0] == s[a] && r[|r| - 1] == s[b - 1];
    assert !AllSpace(s) by { assert !IsSpace(s[a]); }
    MiddleKeepsChars(s, a, b);
  }

  /** Cutting whitespace off both ends of `s` loses no other character. */
  lemma MiddleKeepsChars(s: string, a: nat, b: nat)
    requires a <= b <= |s|
    requires forall k :: 0 <= k < a ==> IsSpace(s[k])
    requires forall k :: b <= k < |s| ==> IsSpace(s[k])
    ensures forall c :: !IsSpace(c) ==> (c in s[a..b] <==> c in s)
  {
    forall c | !IsSpace(c)
      ensures c in s[a..b] <==> c in s
    {
      if c in s {
        var k :| 0 <= k < |s| && s[k] == c;
        assert s[a..b][k - a] == c;
      }
      if c in s[a..b] {
        var k :| 0 <= k < b - a && s[a..b][k] == c;
        assert s[a + k] == c;
      }
    }
  }

  /** An all-whitespace text strips to nothing. */
  lemma StripAllSpace(s: string)
    requires AllSpace(s)
    ensures StrippedAt(s, |s|, [])
  {
    var r: string := [];
    assert s[..|s|] == s;
    assert forall c :: !IsSpace(c) ==> c !in s;
  }

  /** Python's `str.split(sep)` with an explicit one-character separator. */
  function Split(s: string, sep: char): (r: seq<string>)
    ensures |r| == Count(s, sep) + 1
  {
    if s == [] then [""]
    else
      var rest := Split(s[1..], sep);
      if s[0] == sep then [""] + rest else [[s[0]] + rest[0]] + rest[1..]
  }

  /** Python's `sep.join(pieces)`: the inverse of `Split`. */
  function Join(pieces: seq<string>, sep: char): string
  {
    if pieces == [] then ""
    else if |pieces| == 1 then pieces[0]
    else pieces[0] + [sep] + Join(pieces[1..], sep)
  }

  /** The number of occurrences of `c` in `s`. */
  function Count(s: string, c: char): nat
  {
    if s == [] then 0 else (if s[0] == c then 1 else 0) + Count(s[1..], c)
  }

  /** The index of the first occurrence of `c` in `s`. */
  function FirstIndex(s: string, c: char): (i: nat)
    requires c in s
    ensures i < |s| && s[i] == c && c !in s[..i]
  {
    if s[0] == c then 0 else FirstIndex(s[1..], c) + 1
  }

  /**
   * Reference definition of the key the collector extracts: the text after the
   * first separator, up to the second separator or the end.
   */
  function BetweenFirstAndSecond(s: string, sep: char): (r: string)
    requires sep in s
  {
    var rest := s[FirstIndex(s, sep) + 1..];
    if sep in rest then rest[..FirstIndex(rest, sep)] else rest
  }

  /** `_get_container_sdk_info` after the command returned: strip, and no content is `None`. */
  function SdkInfoContent(out: CommandOutput): (r: Option<string>)
    ensures r.None? <==> out.WrapperError? || AllSpace(out.text)
    ensures r.Some? ==> r.value == Strip(out.text)
  {
    match out
    case WrapperError => None
    case Output(text) =>
      var stripped := Strip(text);
      if stripped != "" then Some(stripped) else None
  }

  /**
   * `_get_container_sdk_ikey` on the content read: the second `=`-separated
   * field, which exists exactly when the content holds a `=` and is the text
   * between the first and the second `=` (or the end).
   */
  function IkeyFromContent(content: Option<string>): (r: Option<string>)
    ensures r.None? <==> content.None? || Separator !in content.value
    ensures r.Some? ==> r.value == BetweenFirstAndSecond(content.value, Separator)
  {
    match content
    case None => None
    case Some(info) =>
      var splits := Split(info, Separator);
      HasSecondField(info, Separator);
      if |splits| < 2 then None
      else
        SecondField(info, Separator);
        Some(splits[1])
  }

  /**
   * One discovery attempt: the ikey the collector derives from one run of the
   * command. There is none exactly when the command failed or its output has
   * no `=`; otherwise it is the text between the first and the second `=` of
   * the stripped output (so "k=" gives "" and "a=b=c" gives "b").
   */
  function DiscoverIkey(out: CommandOutput): (r: Option<string>)
    ensures r.None? <==> out.WrapperError? || Separator !in out.text
    ensures r.Some? ==> r.value == BetweenFirstAndSecond(Strip(out.text), Separator)
  {
    IkeyFromContent(SdkInfoContent(out))
  }

  // ---------------------------------------------------------------------------
  // Lemmas
  // ---------------------------------------------------------------------------

  /** No piece that `Split` returns contains the separator. */
  lemma {:induction false} SplitPiecesFree(s: string, sep: char)
    ensures forall j :: 0 <= j < |Split(s, sep)| ==> sep !in Split(s, sep)[j]
  {
    if s != [] {
      SplitPiecesFree(s[1..], sep);
    }
  }

  /** `Join` undoes `Split`. */
  lemma {:induction false} JoinSplit(s: string, sep: char)
    ensures Join(Split(s, sep), sep) == s
  {
    if s != [] {
      var rest := Split(s[1..], sep);
      JoinSplit(s[1..], sep);
      if s[0] == sep {
        assert Split(s, sep) == [""] + rest;
        assert Join(Split(s, sep), sep) == "" + [sep] + Join(rest, sep);
      } else {
        var r := Split(s, sep);
        assert r == [[s[0]] + rest[0]] + rest[1..];
        if |rest| == 1 {
          assert Join(r, sep) == [s[0]] + rest[0];
        } else {
          assert r[1..] == rest[1..];
          assert Join(r, sep) == [s[0]] + rest[0] + [sep] + Join(rest[1..], sep);
          assert Join(rest, sep) == rest[0] + [sep] + Join(rest[1..], sep);
        }
      }
    }
  }

  lemma {:induction false} CountPositive(s: string, c: char)
    ensures Count(s, c) > 0 <==> c in s
  {
    if s != [] {
      CountPositive(s[1..], c);
      assert c in s <==> s[0] == c || c in s[1..];
    }
  }

  /** The first piece of a split is the text before the first separator (or all of it). */
  lemma {:induction false} SplitFirst(s: string, sep: char)
    ensures Split(s, sep)[0] == if sep in s then s[..FirstIndex(s, sep)] else s
  {
    if s != [] {
      SplitFirst(s[1..], sep);
      if s[0] != sep {
        assert sep in s <==> sep in s[1..];
        if sep in s {
          assert s[..FirstIndex(s, sep)] == [s[0]] + s[1..][..FirstIndex(s[1..], sep)];
        } else {
          assert s == [s[0]] + s[1..];
        }
      }
    }
  }

  /** When the separator occurs, the pieces after the first are the split of the text after it. */
  lemma {:induction false} SplitAfterFirst(s: string, sep: char)
    requires sep in s
    ensures Split(s, sep)[1..] == Split(s[FirstIndex(s, sep) + 1..], sep)
  {
    if s[0] != sep {
      SplitAfterFirst(s[1..], sep);
      assert s[FirstIndex(s, sep) + 1..] == s[1..][FirstIndex(s[1..], sep) + 1..];
    }
  }

  /** The second field of a split is the text between the first and the second separator. */
  lemma SecondField(s: string, sep: char)
    requires sep in s
    ensures |Split(s, sep)| >= 2
    ensures Split(s, sep)[1] == BetweenFirstAndSecond(s, sep)
  {
    SplitAfterFirst(s, sep);
    SplitFirst(s[FirstIndex(s, sep) + 1..], sep);
    assert Split(s, sep)[1] == Split(s, sep)[1..][0];
  }

  /** A split has a second field exactly when the separator occurs. */
  lemma HasSecondField(s: string, sep: char)
    ensures |Split(s, sep)| >= 2 <==> sep in s
  {
    CountPositive(s, sep);
  }

  /** The discovered key never contains the separator. */
  lemma DiscoveredIkeyHasNoSeparator(out: CommandOutput)
    requires DiscoverIkey(out).Some?
    ensures Separator !in DiscoverIkey(out).value
  {
    SplitPiecesFree(Strip(out.text), Separator);
  }

  /** One step of `Split`, for unfolding it on literal text. */
  lemma SplitStep(c: char, t: string, sep: char)
    ensures Split([c] + t, sep) ==
      if c == sep then [""] + Split(t, sep) else [[c] + Split(t, sep)[0]] + Split(t, sep)[1..]
  {
    assert ([c] + t)[0] == c && ([c] + t)[1..] == t;
  }

  /** Text that neither starts nor ends with whitespace is left as it is by stripping. */
  lemma StripUnchanged(s: string)
    requires s != [] && !IsSpace(s[0]) && !IsSpace(s[|s| - 1])
    ensures Strip(s) == s
  {
    assert s[0..|s|] == s;
  }

  lemma SplitEmptyKey()
    ensures Split("k=", '=') == ["k", ""]
  {
    assert "=" == ['='] + "" && "k=" == ['k'] + "=";
    SplitStep('=', "", '=');
    SplitStep('k', "=", '=');
    assert ['k'] + "" == "k";
  }

  /** A bare name followed by `=` gives the empty key, not `None`. */
  lemma EmptyKeyExample()
    ensures DiscoverIkey(Output("k=")) == Some("")
  {
    StripUnchanged("k=");
    SplitEmptyKey();
  }

  lemma SplitTwoFields()
    ensures Split("b=c", '=') == ["b", "c"]
  {
    assert "c" == ['c'] + "" && "=c" == ['='] + "c" && "b=c" == ['b'] + "=c";
    assert ['c'] + "" == "c" && ['b'] + "" == "b";
    SplitStep('c', "", '=');
    assert Split("c", '=') == ["c"];
    SplitStep('=', "c", '=');
    assert Split("=c", '=') == ["", "c"];
    SplitStep('b', "=c", '=');
  }

  lemma SplitThreeFields()
    ensures Split("a=b=c", '=') == ["a", "b", "c"]
  {
    assert "=b=c" == ['='] + "b=c" && "a=b=c" == ['a'] + "=b=c";
    assert ['a'] + "" == "a";
    SplitTwoFields();
    SplitStep('=', "b=c", '=');
    assert Split("=b=c", '=') == ["", "b", "c"];
    SplitStep('a', "=b=c", '=');
  }

  /** Fields after the second `=` are dropped. */
  lemma ExtraFieldsExample()
    ensures DiscoverIkey(Output("a=b=c")) == Some("b")
  {
    StripUnchanged("a=b=c");
    SplitThreeFields();
  }
}
