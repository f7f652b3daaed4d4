/**
 * The JavaScript string primitives the task manager relies on:
 * `String.prototype.trim`, `toLowerCase`, `includes` and `.length`
 * (which counts UTF-16 code units, not characters).
 */
module Text {

  /** The characters `trim` strips: ECMAScript WhiteSpace and LineTerminator. */
  predicate IsSpace(c: char) {
    || c == '\t' || c == '\n' || c == '\U{000B}' || c == '\U{000C}' || c == '\r'
    || c == ' ' || c == '\U{00A0}' || c == '\U{1680}'
    || ('\U{2000}' <= c <= '\U{200A}')
    || c == '\U{2028}' || c == '\U{2029}' || c == '\U{202F}' || c == '\U{205F}'
    || c == '\U{3000}' || c == '\U{FEFF}'
  }

  /** Every character of `s` is white space (true of the empty string). */
  predicate AllSpace(s: string) {
    forall i :: 0 <= i < |s| ==> IsSpace(s[i])
  }

  /** `s` with its leading white space removed. */
  function TrimStart(s: string): (r: string)
    ensures |r| <= |s|
    ensures r == [] || !IsSpace(r[0])
  {
    if s != [] && IsSpace(s[0]) then TrimStart(s[1..]) else s
  }

  /** What `TrimStart` keeps is a suffix, and what it drops is white space. */
  lemma {:induction false} TrimStartIsSuffix(s: string)
    ensures TrimStart(s) == s[|s| - |TrimStart(s)|..]
    ensures AllSpace(s[..|s| - |TrimStart(s)|])
  {
    if s != [] && IsSpace(s[0]) {
      TrimStartIsSuffix(s[1..]);
      var k := |s| - |TrimStart(s)|;
      assert s[1..][k - 1..] == s[k..];
      forall i | 0 <= i < k ensures IsSpace(s[..k][i]) {
        if i > 0 {
          assert s[..k][i] == s[1..][..k - 1][i - 1];
        }
      }
    }
  }

  /** Leading-space removal empties a string that is all white space. */
  lemma {:induction false} BlankTrimStart(s: string)
    requires AllSpace(s)
    ensures TrimStart(s) == []
  {
    if s != [] {
      assert AllSpace(s[1..]) by {
        forall i | 0 <= i < |s[1..]| ensures IsSpace(s[1..][i]) {
          assert s[1..][i] == s[i + 1];
        }
      }
      BlankTrimStart(s[1..]);
    }
  }

  /** `s` with its trailing white space removed. */
  function TrimEnd(s: string): (r: string)
    ensures |r| <= |s|
    ensures r == [] || !IsSpace(r[|r| - 1])
  {
    if s != [] && IsSpace(s[|s| - 1]) then TrimEnd(s[..|s| - 1]) else s
  }

  /** What `TrimEnd` keeps is a prefix, and what it drops is white space. */
  lemma {:induction false} TrimEndIsPrefix(s: string)
    ensures TrimEnd(s) == s[..|TrimEnd(s)|]
    ensures AllSpace(s[|TrimEnd(s)|..])
  {
    if s != [] && IsSpace(s[|s| - 1]) {
      var init := s[..|s| - 1];
      TrimEndIsPrefix(init);
      var k := |TrimEnd(s)|;
      assert init[..k] == s[..k];
      forall i | k <= i < |s| ensures IsSpace(s[i]) {
        if i < |s| - 1 {
          assert init[k..][i - k] == s[i];
        }
      }
    }
  }

  /** `String.prototype.trim`: white space removed at both ends. */
  function Trim(s: string): (r: string)
    ensures |r| <= |s|
    ensures r == [] || (!IsSpace(r[0]) && !IsSpace(r[|r| - 1]))
    ensures r == [] <==> AllSpace(s)
  {
    TrimHalves(s);
    TrimEnd(TrimStart(s))
  }

  /** The facts `Trim`'s contract needs about its two halves. */
  lemma TrimHalves(s: string)
    ensures var r := TrimEnd(TrimStart(s));
      && (r != [] ==> r[0] == TrimStart(s)[0])
      && (r == [] <==> AllSpace(s))
  {
    var front := TrimStart(s);
    var r := TrimEnd(front);
    TrimEndIsPrefix(front);
    TrimStartIsSuffix(s);
    var k := |s| - |front|;
    assert s == s[..k] + front;
    if AllSpace(s) {
      BlankTrimStart(s);
    }
  }

  /** What `trim` keeps is a contiguous slice of the input. */
  lemma TrimIsSlice(s: string) returns (start: nat)
    ensures start + |Trim(s)| <= |s|
    ensures Trim(s) == s[start..start + |Trim(s)|]
    ensures AllSpace(s[..start]) && AllSpace(s[start + |Trim(s)|..])
  {
    var front := TrimStart(s);
    TrimStartIsSuffix(s);
    start := |s| - |front|;
    SliceOfTrimEnd(s, start, front);
  }

  lemma SliceOfTrimEnd(s: string, start: nat, front: string)
    requires start <= |s| && front == s[start..]
    ensures TrimEnd(front) == s[start..start + |TrimEnd(front)|]
    ensures AllSpace(s[start + |TrimEnd(front)|..])
  {
    var r := TrimEnd(front);
    TrimEndIsPrefix(front);
    assert front[..|r|] == s[start..start + |r|];
    assert s[start + |r|..] == front[|r|..];
  }

  /** Trimming twice is trimming once. */
  lemma TrimIdempotent(s: string)
    ensures Trim(Trim(s)) == Trim(s)
  {
    var r := Trim(s);
    assert TrimStart(r) == r;
    assert TrimEnd(r) == r;
  }

  /** Surrounding white space does not change the trimmed text. */
  lemma TrimIgnoresPadding(pad1: string, s: string, pad2: string)
    requires AllSpace(pad1) && AllSpace(pad2)
    ensures Trim(pad1 + s + pad2) == Trim(s)
  {
    assert pad1 + s + pad2 == pad1 + (s + pad2);
    TrimStartPadding(pad1, s + pad2);
    assert TrimStart(pad1 + s + pad2) == TrimStart(s + pad2);
    TrimStartAppend(s, pad2);
    assert TrimEnd(TrimStart(s + pad2)) == TrimEnd(TrimStart(s));
  }

  lemma {:induction false} TrimStartPadding(pad: string, s: string)
    requires AllSpace(pad)
    ensures TrimStart(pad + s) == TrimStart(s)
  {
    if pad != [] {
      assert (pad + s)[0] == pad[0];
      assert (pad + s)[1..] == pad[1..] + s;
      assert AllSpace(pad[1..]) by {
        forall i | 0 <= i < |pad[1..]| ensures IsSpace(pad[1..][i]) {
          assert pad[1..][i] == pad[i + 1];
        }
      }
      TrimStartPadding(pad[1..], s);
    } else {
      assert pad + s == s;
    }
  }

  lemma {:induction false} TrimEndPadding(s: string, pad: string)
    requires AllSpace(pad)
    ensures TrimEnd(s + pad) == TrimEnd(s)
  {
    if pad != [] {
      assert (s + pad)[..|s + pad| - 1] == s + pad[..|pad| - 1];
      TrimEndPadding(s, pad[..|pad| - 1]);
    } else {
      assert s + pad == s;
    }
  }

  /** Leading white space is stripped before the trailing part is reached. */
  lemma {:induction false} TrimStartAppend(s: string, pad: string)
    requires AllSpace(pad)
    ensures TrimEnd(TrimStart(s + pad)) == TrimEnd(TrimStart(s))
  {
    if s == [] {
      assert s + pad == pad;
      BlankTrimStart(pad);
    } else if IsSpace(s[0]) {
      assert (s + pad)[1..] == s[1..] + pad;
      TrimStartAppend(s[1..], pad);
    } else {
      TrimEndPadding(s, pad);
    }
  }

  /** `toLowerCase` on one character: ASCII and Latin-1 capitals only. */
  function LowerChar(c: char): (r: char)
    ensures ('A' <= c <= 'Z') ==> r as int == c as int + 32
    ensures !('A' <= c <= 'Z') && !('\U{00C0}' <= c <= '\U{00DE}') ==> r == c
  {
    if 'A' <= c <= 'Z' || ('\U{00C0}' <= c <= '\U{00DE}' && c != '\U{00D7}')
    then (c as int + 32) as char
    else c
  }

  /** `String.prototype.toLowerCase`, character by character. */
  function ToLower(s: string): (r: string)
    ensures |r| == |s|
    ensures forall i :: 0 <= i < |s| ==> r[i] == LowerChar(s[i])
  {
    seq(|s|, i requires 0 <= i < |s| => LowerChar(s[i]))
  }

  /** `needle` occurs in `hay` starting at index `i`. */
  predicate OccursAt(hay: string, needle: string, i: int) {
    0 <= i && i + |needle| <= |hay| && hay[i..i + |needle|] == needle
  }

  /** `String.prototype.includes`: `needle` is a substring of `hay`. */
  predicate Contains(hay: string, needle: string)
    ensures Contains(hay, needle) ==> |needle| <= |hay|
    decreases |hay|
  {
    (|needle| <= |hay| && hay[..|needle|] == needle) || (hay != [] && Contains(hay[1..], needle))
  }

  /** `Contains` holds exactly when the needle occurs at some index. */
  lemma {:induction false} ContainsIff(hay: string, needle: string)
    ensures Contains(hay, needle) <==> exists i :: OccursAt(hay, needle, i)
    decreases |hay|
  {
    if hay != [] {
      ContainsIff(hay[1..], needle);
      var atHead := |needle| <= |hay| && hay[..|needle|] == needle;
      assert atHead <==> OccursAt(hay, needle, 0) by {
        if |needle| <= |hay| {
          assert hay[0..|needle|] == hay[..|needle|];
        }
      }
      assert (exists i :: OccursAt(hay[1..], needle, i)) ==> exists i :: OccursAt(hay, needle, i) by {
        if exists i :: OccursAt(hay[1..], needle, i) {
          var i :| OccursAt(hay[1..], needle, i);
          OccursInTail(hay, needle, i);
        }
      }
      assert (exists i :: OccursAt(hay, needle, i)) ==> atHead || exists i :: OccursAt(hay[1..], needle, i) by {
        if exists i :: OccursAt(hay, needle, i) {
          var i :| OccursAt(hay, needle, i);
          if i > 0 {
            OccursPastHead(hay, needle, i);
          }
        }
      }
    } else if needle == [] {
      assert hay[..0] == needle;
      assert OccursAt(hay, needle, 0);
    }
  }

  /** An occurrence in the tail is an occurrence one place further on. */
  lemma OccursInTail(hay: string, needle: string, i: int)
    requires hay != [] && OccursAt(hay[1..], needle, i)
    ensures OccursAt(hay, needle, i + 1)
  {
    assert hay[i + 1..i + 1 + |needle|] == hay[1..][i..i + |needle|];
  }

  /** An occurrence past the head is an occurrence in the tail. */
  lemma OccursPastHead(hay: string, needle: string, i: int)
    requires i > 0 && OccursAt(hay, needle, i)
    ensures OccursAt(hay[1..], needle, i - 1)
  {
    assert hay[1..][i - 1..i - 1 + |needle|] == hay[i..i + |needle|];
  }

  /** Every string includes the empty string. */
  lemma ContainsEmpty(hay: string)
    ensures Contains(hay, [])
  {
  }

  /** `.length`: a character outside the Basic Multilingual Plane counts twice. */
  function Utf16Length(s: string): (n: nat)
    ensures |s| <= n <= 2 * |s|
    ensures n == 0 <==> s == []
  {
    if s == [] then 0
    else Utf16Length(s[..|s| - 1]) + (if s[|s| - 1] as int > 0xFFFF then 2 else 1)
  }

  /** On Basic Multilingual Plane text `.length` is the number of characters. */
  lemma {:induction false} Utf16LengthBmp(s: string)
    requires forall i :: 0 <= i < |s| ==> s[i] as int <= 0xFFFF
    ensures Utf16Length(s) == |s|
  {
    if s != [] {
      Utf16LengthBmp(s[..|s| - 1]);
    }
  }
}
