/**
 * The tag stripper of the FAQ schema builder: `text.replace(/<[^>]+>/g, '')`.
 * The regular expression matches a '<', one or more characters other than
 * '>', and a closing '>'. A global replace scans left to right: where the
 * pattern matches, the match is deleted and the scan resumes after it;
 * elsewhere one character is kept and the scan moves on by one.
 */
module TagStrip {

  /** The pattern <[^>]+> matches exactly s[p..q+1]. */
  predicate TagAt(s: string, p: int, q: int) {
    0 <= p && p + 2 <= q < |s| && s[p] == '<' && s[q] == '>' &&
    forall k :: p < k < q ==> s[k] != '>'
  }

  /** The pattern matches nowhere in s. */
  predicate TagFree(s: string) {
    forall p, q | 0 <= p < q < |s| :: !TagAt(s, p, q)
  }

  /** The position of the first '>' in s at or after i, or |s| if there is none. */
  function CloseFrom(s: string, i: nat): (j: nat)
    requires i <= |s|
    ensures i <= j <= |s|
    ensures j < |s| ==> s[j] == '>'
    ensures forall k :: i <= k < j ==> s[k] != '>'
    decreases |s| - i
  {
    if i == |s| || s[i] == '>' then i else CloseFrom(s, i + 1)
  }

  /** The length of the match of the pattern at the start of s, or 0 when it does not match there. */
  function TagLength(s: string): (n: nat)
    ensures n == 0 || (3 <= n <= |s| && TagAt(s, 0, n - 1))
    ensures n == 0 ==> forall q | 0 <= q < |s| :: !TagAt(s, 0, q)
  {
    if |s| > 0 && s[0] == '<' then
      var j := CloseFrom(s, 1);
      if 2 <= j < |s| then j + 1 else 0
    else
      0
  }

  /** s with every match of <[^>]+> deleted, scanning left to right. */
  function Strip(s: string): (r: string)
    ensures |r| <= |s|
    decreases |s|
  {
    if s == [] then []
    else
      var n := TagLength(s);
      if n > 0 then Strip(s[n..]) else [s[0]] + Strip(s[1..])
  }

  /** The stripper only deletes: every output character is taken from the input. */
  lemma {:induction false} StripSubMultiset(s: string)
    ensures multiset(Strip(s)) <= multiset(s)
    decreases |s|
  {
    if s != [] {
      var n := TagLength(s);
      if n > 0 {
        assert s == s[..n] + s[n..];
        StripSubMultiset(s[n..]);
      } else {
        assert s == [s[0]] + s[1..];
        StripSubMultiset(s[1..]);
      }
    }
  }

  /** Dropping the first character of a tag-free string keeps it tag-free. */
  lemma TagFreeTail(s: string)
    requires s != [] && TagFree(s)
    ensures TagFree(s[1..])
  {
    forall p, q | TagAt(s[1..], p, q)
      ensures false
    {
      assert TagAt(s, p + 1, q + 1);
    }
  }

  /**
   * Putting a character in front of a tag-free string keeps it tag-free when
   * that character cannot open a tag: it is not '<', or a '>' follows it
   * at once, or no '>' follows it at all.
   */
  lemma TagFreeCons(c: char, t: string)
    requires TagFree(t)
    requires c != '<' || (t != [] && t[0] == '>') || '>' !in t
    ensures TagFree([c] + t)
  {
    var r := [c] + t;
    forall p, q | 0 <= p < q < |r|
      ensures !TagAt(r, p, q)
    {
      if p == 0 {
        if c == '<' && t != [] && t[0] == '>' {
          assert r[1] == '>';
        } else if c == '<' {
          assert r[q] == t[q - 1];
        }
      } else if TagAt(r, p, q) {
        forall k | p - 1 < k < q - 1 ensures t[k] != '>' {
          assert t[k] == r[k + 1];
        }
        assert TagAt(t, p - 1, q - 1);
      }
    }
  }

  /** No match of the pattern survives the stripper. */
  lemma {:induction false} StripTagFree(s: string)
    ensures TagFree(Strip(s))
    decreases |s|
  {
    if s != [] {
      var n := TagLength(s);
      if n > 0 {
        StripTagFree(s[n..]);
      } else {
        var t := Strip(s[1..]);
        StripTagFree(s[1..]);
        if s[0] == '<' {
          var j := CloseFrom(s, 1);
          if j < |s| {
            assert j == 1;
            assert TagLength(s[1..]) == 0;
            assert t == [s[1]] + Strip(s[2..]) by {
              assert s[1..][1..] == s[2..];
            }
          } else {
            assert '>' !in s[1..] by {
              forall k | 0 <= k < |s[1..]| ensures s[1..][k] != '>' {
                assert s[1..][k] == s[k + 1];
              }
            }
            StripSubMultiset(s[1..]);
            assert '>' !in multiset(s[1..]);
          }
        }
        TagFreeCons(s[0], t);
      }
    }
  }

  /** The stripper leaves a tag-free string as it is. */
  lemma {:induction false} StripTagFreeIdentity(s: string)
    requires TagFree(s)
    ensures Strip(s) == s
    decreases |s|
  {
    if s != [] {
      assert TagLength(s) == 0;
      TagFreeTail(s);
      StripTagFreeIdentity(s[1..]);
    }
  }

  /** A string is a fixed point of the stripper exactly when it is tag-free. */
  lemma StripFixedPoint(s: string)
    ensures Strip(s) == s <==> TagFree(s)
  {
    StripTagFree(s);
    if TagFree(s) {
      StripTagFreeIdentity(s);
    }
  }

  /** Stripping twice is the same as stripping once. */
  lemma StripIdempotent(s: string)
    ensures Strip(Strip(s)) == Strip(s)
  {
    StripTagFree(s);
    StripTagFreeIdentity(Strip(s));
  }

  /** Text without any '<' passes through unchanged. */
  lemma StripWithoutAngle(s: string)
    requires '<' !in s
    ensures Strip(s) == s
  {
  }

  /** A leading run of text without '<' is copied to the output as it is. */
  lemma {:induction false} StripPlainPrefix(a: string, b: string)
    requires '<' !in a
    ensures Strip(a + b) == a + Strip(b)
    decreases |a|
  {
    if a != [] {
      var s := a + b;
      assert s[0] == a[0] && s[0] != '<';
      assert TagLength(s) == 0;
      assert Strip(s) == [s[0]] + Strip(s[1..]);
      assert s[1..] == a[1..] + b;
      assert '<' !in a[1..] by {
        assert a == [a[0]] + a[1..];
      }
      StripPlainPrefix(a[1..], b);
      assert a == [a[0]] + a[1..];
    } else {
      assert a + b == b;
    }
  }

  /** A tag at the very start of the input is deleted as a whole. */
  lemma StripLeadingTag(tag: string, rest: string)
    requires TagAt(tag, 0, |tag| - 1)
    ensures Strip(tag + rest) == Strip(rest)
  {
    var s := tag + rest;
    assert TagAt(s, 0, |tag| - 1);
    assert s[|tag|..] == rest;
  }

  /** Text between an opening and a closing tag is all that is left of them. */
  lemma StripEnclosed(open: string, text: string, close: string)
    requires TagAt(open, 0, |open| - 1) && TagAt(close, 0, |close| - 1)
    requires '<' !in text
    ensures Strip(open + text + close) == text
  {
    assert open + text + close == open + (text + close);
    StripLeadingTag(open, text + close);
    StripPlainPrefix(text, close);
    StripLeadingTag(close, []);
    assert close + [] == close;
  }

  /** Inline markup around a word is removed, leaving the word. */
  lemma StripStrongHello()
    ensures Strip("<strong>Hello</strong>") == "Hello"
  {
    var open, close := "<strong>", "</strong>";
    assert TagAt(open, 0, 7);
    assert TagAt(close, 0, 8);
    StripEnclosed(open, "Hello", close);
    assert open + "Hello" + close == "<strong>Hello</strong>";
  }
}
