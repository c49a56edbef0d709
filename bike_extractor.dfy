/**
 * The two pieces of the extraction service that are plain computation: the
 * dimensions an uploaded chart image is scaled down to before it is sent to
 * the vision model, and the stripping and truncation of a pasted text.
 */
module BikeExtractor {
  import BikeSelect

  /** The default `max_size` of an image, in pixels. */
  const DefaultMaxSize: nat := 768

  /** `MAX_TEXT_LENGTH`: the longest text a request may carry and the default `max_size` of a text. */
  const MaxTextLength: nat := 3000

  // ---------------------------------------------------------------------
  // Image dimensions
  // ---------------------------------------------------------------------

  /** The width and height of an image, in pixels. */
  datatype Size = Size(width: nat, height: nat)

  /** The image is resized only when one side is longer than `maxSize`. */
  predicate Oversize(s: Size, maxSize: nat) {
    s.width > maxSize || s.height > maxSize
  }

  /** `int(a * (m / b))` on exact numbers: `a` scaled by `m / b`, rounded down. */
  function Scale(a: nat, b: nat, m: nat): nat
    requires 0 < b
  {
    a * m / b
  }

  /** The scaled side is the largest whole number not above the exact scaled length. */
  lemma ScaleRounding(a: nat, b: nat, m: nat)
    requires 0 < b
    ensures Scale(a, b, m) * b <= a * m < (Scale(a, b, m) + 1) * b
  {
  }

  /** From `x * b <= y * b` with a positive `b` follows `x <= y`. */
  lemma CancelFactor(x: int, y: int, b: int)
    requires 0 < b && x * b <= y * b
    ensures x <= y
  {
    assert (y - x) * b >= 0;
  }

  /** A factor at most 1 scales down: `a * m / b <= a` when `m <= b`. */
  lemma ScaleShrinks(a: nat, b: nat, m: nat)
    requires 0 < b && m <= b
    ensures Scale(a, b, m) <= a
  {
    ScaleRounding(a, b, m);
    assert a * m <= a * b;
    CancelFactor(Scale(a, b, m), a, b);
  }

  /** Scaling the shorter side by `m / b` keeps it at most `m`. */
  lemma ScaleBounded(a: nat, b: nat, m: nat)
    requires 0 < b && a <= b
    ensures Scale(a, b, m) <= m
  {
    ScaleRounding(a, b, m);
    assert a * m <= b * m;
    CancelFactor(Scale(a, b, m), m, b);
  }

  /** The scaled side is 0 exactly when its exact length is below one pixel. */
  lemma ScaleZero(a: nat, b: nat, m: nat)
    requires 0 < b
    ensures Scale(a, b, m) == 0 <==> a * m < b
  {
    ScaleRounding(a, b, m);
    if a * m < b {
      CancelFactor(Scale(a, b, m) + 1, 1, b);
    }
  }

  /**
   * The new dimensions: the longer side (the height when both are equal)
   * becomes `maxSize` and the other one is scaled by the same factor and
   * rounded down; an image that already fits is kept as it is.
   */
  function Resize(s: Size, maxSize: nat): (r: Size)
    ensures Oversize(s, maxSize) && s.width > s.height ==> r.width == maxSize
    ensures Oversize(s, maxSize) && s.width <= s.height ==> r.height == maxSize
  {
    if Oversize(s, maxSize) then
      if s.width > s.height then Size(maxSize, Scale(s.height, s.width, maxSize))
      else Size(Scale(s.width, s.height, maxSize), maxSize)
    else s
  }

  /** An image is left untouched exactly when it already fits. */
  lemma ResizeUnchanged(s: Size, maxSize: nat)
    ensures Resize(s, maxSize) == s <==> !Oversize(s, maxSize)
  {
  }

  /** After resizing, both sides are at most `maxSize`. */
  lemma ResizeFits(s: Size, maxSize: nat)
    ensures Resize(s, maxSize).width <= maxSize
    ensures Resize(s, maxSize).height <= maxSize
  {
    if Oversize(s, maxSize) {
      if s.width > s.height {
        ScaleBounded(s.height, s.width, maxSize);
      } else {
        ScaleBounded(s.width, s.height, maxSize);
      }
    }
  }

  /** Resizing never makes a side longer. */
  lemma ResizeNeverEnlarges(s: Size, maxSize: nat)
    ensures Resize(s, maxSize).width <= s.width
    ensures Resize(s, maxSize).height <= s.height
  {
    if Oversize(s, maxSize) {
      if s.width > s.height {
        ScaleShrinks(s.height, s.width, maxSize);
      } else {
        ScaleShrinks(s.width, s.height, maxSize);
      }
    }
  }

  /**
   * The aspect ratio is kept up to rounding: the shorter side is the largest
   * whole number of pixels not above its exact scaled length.
   */
  lemma ResizeKeepsRatio(s: Size, maxSize: nat)
    requires Oversize(s, maxSize)
    ensures var r := Resize(s, maxSize);
      if s.width > s.height then
        r.height * s.width <= s.height * maxSize < (r.height + 1) * s.width
      else
        r.width * s.height <= s.width * maxSize < (r.width + 1) * s.height
  {
    if s.width > s.height {
      ScaleRounding(s.height, s.width, maxSize);
    } else {
      ScaleRounding(s.width, s.height, maxSize);
    }
  }

  /**
   * A side scaled below one pixel comes out as 0: a size that Pillow's
   * `resize` refuses to build.
   */
  lemma ResizeEmpty(s: Size, maxSize: nat)
    requires Oversize(s, maxSize)
    ensures var r := Resize(s, maxSize);
      if s.width > s.height then r.height == 0 <==> s.height * maxSize < s.width
      else r.width == 0 <==> s.width * maxSize < s.height
  {
    if s.width > s.height {
      ScaleZero(s.height, s.width, maxSize);
    } else {
      ScaleZero(s.width, s.height, maxSize);
    }
  }

  /** A 4000 by 3000 chart is sent as 768 by 576 pixels. */
  lemma ResizeLandscape()
    ensures Resize(Size(4000, 3000), DefaultMaxSize) == Size(768, 576)
  {
  }

  // ---------------------------------------------------------------------
  // Text
  // ---------------------------------------------------------------------

  /** Python's `str.isspace` for one character: the Unicode whitespace and the four separators. */
  predicate IsSpace(c: char) {
    var n := c as int;
    (0x9 <= n <= 0xd) || (0x1c <= n <= 0x20) || n == 0x85 || n == 0xa0 || n == 0x1680
    || (0x2000 <= n <= 0x200a) || n == 0x2028 || n == 0x2029 || n == 0x202f || n == 0x205f
    || n == 0x3000
  }

  /** The space, the tab, the no-break and the ideographic space are whitespace; a letter, the zero-width space and the Mongolian vowel separator are not. */
  lemma IsSpaceExamples()
    ensures IsSpace(' ') && IsSpace('\t') && IsSpace('\U{A0}') && IsSpace('\U{3000}')
    ensures !IsSpace('a') && !IsSpace('\U{200B}') && !IsSpace('\U{180E}')
  {
  }

  /** Every character of `s` is whitespace. */
  predicate AllSpace(s: string) {
    forall i | 0 <= i < |s| :: IsSpace(s[i])
  }

  /** A concatenation is all whitespace when both parts are. */
  lemma AllSpaceConcat(a: string, b: string)
    requires AllSpace(a) && AllSpace(b)
    ensures AllSpace(a + b)
  {
    forall i | 0 <= i < |a + b| ensures IsSpace((a + b)[i]) {
      if i < |a| {
        assert (a + b)[i] == a[i];
      } else {
        assert (a + b)[i] == b[i - |a|];
      }
    }
  }

  /** `s` is empty or starts and ends with a character that is not whitespace. */
  predicate Trimmed(s: string) {
    |s| == 0 || (!IsSpace(s[0]) && !IsSpace(s[|s| - 1]))
  }

  /** The number of whitespace characters `s` starts with. */
  function LeadingSpace(s: string): (n: nat)
    ensures n <= |s|
    ensures AllSpace(s[..n])
    ensures n < |s| ==> !IsSpace(s[n])
  {
    if |s| == 0 || !IsSpace(s[0]) then 0 else 1 + LeadingSpace(s[1..])
  }

  /** The number of whitespace characters `s` ends with. */
  function TrailingSpace(s: string): (n: nat)
    ensures n <= |s|
    ensures AllSpace(s[|s| - n..])
    ensures n < |s| ==> !IsSpace(s[|s| - n - 1])
  {
    if |s| == 0 || !IsSpace(s[|s| - 1]) then 0
    else
      var t := s[..|s| - 1];
      var m := TrailingSpace(t);
      assert s[|s| - (1 + m)..] == t[|t| - m..] + [s[|s| - 1]];
      AllSpaceConcat(t[|t| - m..], [s[|s| - 1]]);
      assert 1 + m < |s| ==> s[|s| - (1 + m) - 1] == t[|t| - m - 1];
      1 + m
  }

  /**
   * `str.strip()`: `s` without the whitespace it starts and ends with. The
   * result is the part of `s` that follows its leading whitespace, and only
   * whitespace follows it.
   */
  function Strip(s: string): (r: string)
    ensures Trimmed(r)
    ensures LeadingSpace(s) + |r| <= |s|
    ensures r == s[LeadingSpace(s)..LeadingSpace(s) + |r|]
    ensures AllSpace(s[LeadingSpace(s) + |r|..])
    ensures |r| == 0 <==> AllSpace(s)
  {
    var a := LeadingSpace(s);
    if a == |s| then
      s[a..]
    else
      var b := TrailingSpace(s);
      assert forall i | |s| - b <= i < |s| :: IsSpace(s[i]) by {
        forall i | |s| - b <= i < |s| ensures IsSpace(s[i]) {
          assert s[|s| - b..][i - (|s| - b)] == s[i];
        }
      }
      s[a..|s| - b]
  }

  /** A run of `k` whitespace characters followed by a non-whitespace one (or the end) is the leading whitespace. */
  lemma LeadingSpaceExact(s: string, k: nat)
    requires k <= |s|
    requires forall i | 0 <= i < k :: IsSpace(s[i])
    requires k < |s| ==> !IsSpace(s[k])
    ensures LeadingSpace(s) == k
  {
    var n := LeadingSpace(s);
    assert forall i | 0 <= i < n :: IsSpace(s[i]) by {
      forall i | 0 <= i < n ensures IsSpace(s[i]) {
        assert s[..n][i] == s[i];
      }
    }
  }

  /** A run of `k` trailing whitespace characters after a non-whitespace one (or the start) is the trailing whitespace. */
  lemma TrailingSpaceExact(s: string, k: nat)
    requires k <= |s|
    requires forall i | |s| - k <= i < |s| :: IsSpace(s[i])
    requires k < |s| ==> !IsSpace(s[|s| - k - 1])
    ensures TrailingSpace(s) == k
  {
    var n := TrailingSpace(s);
    assert forall i | |s| - n <= i < |s| :: IsSpace(s[i]) by {
      forall i | |s| - n <= i < |s| ensures IsSpace(s[i]) {
        assert s[|s| - n..][i - (|s| - n)] == s[i];
      }
    }
  }

  /**
   * The independent description of `strip`: whatever whitespace `a` and `b`
   * surround a trimmed text `t` with, stripping gives `t` back.
   */
  lemma StripUnique(a: string, t: string, b: string)
    requires AllSpace(a) && AllSpace(b) && Trimmed(t)
    ensures Strip(a + t + b) == t
  {
    var s := a + t + b;
    assert forall i | 0 <= i < |a| :: s[i] == a[i];
    assert forall i | |a| + |t| <= i < |s| :: s[i] == b[i - |a| - |t|];
    if |t| == 0 {
      assert AllSpace(s) by {
        forall i | 0 <= i < |s| ensures IsSpace(s[i]) {
          if i >= |a| {
            assert s[i] == b[i - |a| - |t|];
          }
        }
      }
    } else {
      assert s[|a|] == t[0];
      assert s[|a| + |t| - 1] == t[|t| - 1];
      LeadingSpaceExact(s, |a|);
      TrailingSpaceExact(s, |b|);
      assert s[|a|..|s| - |b|] == t;
    }
  }

  /** Stripping twice strips nothing more. */
  lemma StripIdempotent(s: string)
    ensures Strip(Strip(s)) == Strip(s)
  {
    var r := Strip(s);
    assert [] + r + [] == r;
    StripUnique([], r, []);
  }

  /** Stripping never makes a text longer. */
  lemma StripShorter(s: string)
    ensures |Strip(s)| <= |s|
  {
  }

  /**
   * Python's `s[:n]`: the first `n` elements, all of them when `n` is past
   * the end, and for a negative `n` all but the last `-n`.
   */
  function PyPrefix<T>(s: seq<T>, n: int): (r: seq<T>)
    ensures r <= s
    ensures 0 <= n ==> |r| == if n <= |s| then n else |s|
    ensures n < 0 ==> |r| == if -n <= |s| then |s| + n else 0
  {
    if n >= 0 then s[..if n <= |s| then n else |s|]
    else s[..if -n <= |s| then |s| + n else 0]
  }

  /** Taking the same prefix again changes nothing. */
  lemma PyPrefixIdempotent<T>(s: seq<T>, n: nat)
    ensures PyPrefix(PyPrefix(s, n), n) == PyPrefix(s, n)
  {
  }

  /** `text_content.strip()[:max_size]`: the stripped text, cut to `maxSize` characters. */
  function PrepareText(text: string, maxSize: int): (r: string)
    ensures r <= Strip(text)
    ensures 0 <= maxSize ==> |r| <= maxSize
    ensures 0 <= maxSize ==> (r == Strip(text) <==> |Strip(text)| <= maxSize)
    ensures |r| == 0 || !IsSpace(r[0])
  {
    PyPrefix(Strip(text), maxSize)
  }

  /** The prompt slices the prepared text once more, which changes nothing. */
  lemma PromptTextPrepared(text: string, maxSize: nat)
    ensures PyPrefix(PrepareText(text, maxSize), maxSize) == PrepareText(text, maxSize)
  {
    PyPrefixIdempotent(Strip(text), maxSize);
  }

  /** A text the request accepts is never cut by the default limit: it is only stripped. */
  lemma AcceptedTextOnlyStripped(text: string)
    requires |text| <= MaxTextLength
    ensures PrepareText(text, MaxTextLength) == Strip(text)
  {
  }

  /** Stripping comes first, so a cut can leave trailing whitespace: the prepared text need not be trimmed. */
  lemma CutAfterStrip()
    ensures PrepareText("a b", 2) == "a "
  {
    assert [] + "a b" + [] == "a b";
    StripUnique([], "a b", []);
  }

  /**
   * A text the form accepts reaches the service only stripped, and what is
   * sent is empty exactly when the text is all whitespace.
   */
  lemma FormTextReachesService(text: string)
    requires BikeSelect.TextAccepted(text)
    ensures PrepareText(text, MaxTextLength) == Strip(text)
    ensures PrepareText(text, MaxTextLength) == [] <==> AllSpace(text)
  {
    AcceptedTextOnlyStripped(text);
  }

  /**
   * The text form only bounds the length, so a text of blanks passes it and
   * reaches the service, where stripping leaves nothing to send.
   */
  lemma BlankTextAccepted()
    ensures BikeSelect.TextAccepted("  ")
    ensures PrepareText("  ", MaxTextLength) == []
  {
    assert AllSpace("  ");
  }
}
