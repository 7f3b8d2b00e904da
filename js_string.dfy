/**
 * The JavaScript string built-ins that the relay, the stream reader and the
 * SQL builder rely on, written out with the semantics of the ECMAScript
 * language: `trim`, `split('\n')`, `slice(k)`, `startsWith`, `indexOf`,
 * `join` and the decimal rendering of a non-negative integer in a template
 * literal.
 */
module JsString {

  /** The code points that `String.prototype.trim` removes: ECMAScript
      WhiteSpace (tab, vertical tab, form feed, no-break space, byte order mark
      and every space separator) and LineTerminator (LF, CR, LS, PS). */
  predicate IsWhitespace(c: char) {
    var n := c as int;
    n == 0x09 || n == 0x0A || n == 0x0B || n == 0x0C || n == 0x0D ||
    n == 0x20 || n == 0xA0 || n == 0x1680 || (0x2000 <= n <= 0x200A) ||
    n == 0x2028 || n == 0x2029 || n == 0x202F || n == 0x205F ||
    n == 0x3000 || n == 0xFEFF
  }

  predicate AllWhitespace(s: string) {
    forall i :: 0 <= i < |s| ==> IsWhitespace(s[i])
  }

  /** The index, at or after `i`, of the first non-whitespace character of
      `s`, or `|s|` when there is none. */
  function TrimStartLength(s: string, i: nat): (k: nat)
    requires i <= |s|
    ensures i <= k <= |s|
    ensures forall j :: i <= j < k ==> IsWhitespace(s[j])
    ensures k == |s| || !IsWhitespace(s[k])
    decreases |s| - i
  {
    if i == |s| || !IsWhitespace(s[i]) then i else TrimStartLength(s, i + 1)
  }

  /** The index just past the last non-whitespace character of `s[..i]`, or 0
      when there is none. */
  function TrimEndLength(s: string, i: nat): (k: nat)
    requires i <= |s|
    ensures k <= i
    ensures forall j :: k <= j < i ==> IsWhitespace(s[j])
    ensures k == 0 || !IsWhitespace(s[k - 1])
  {
    if i == 0 || !IsWhitespace(s[i - 1]) then i else TrimEndLength(s, i - 1)
  }

  /** `s.trimStart()`: drops the longest all-whitespace prefix. */
  function TrimStart(s: string): (r: string)
    ensures |r| <= |s| && r == s[|s| - |r|..]
    ensures AllWhitespace(s[..|s| - |r|])
    ensures r == [] || !IsWhitespace(r[0])
  {
    var k := TrimStartLength(s, 0);
    assert forall j :: 0 <= j < k ==> s[..k][j] == s[j];
    s[k..]
  }

  /** `s.trimEnd()`: drops the longest all-whitespace suffix. */
  function TrimEnd(s: string): (r: string)
    ensures |r| <= |s| && r == s[..|r|]
    ensures AllWhitespace(s[|r|..])
    ensures r == [] || !IsWhitespace(r[|r| - 1])
  {
    var k := TrimEndLength(s, |s|);
    assert forall j :: 0 <= j < |s| - k ==> s[k..][j] == s[k + j];
    s[..k]
  }

  /** `s.trim()`: the slice of `s` left once leading and trailing whitespace
      are gone. It is empty exactly when `s` is all whitespace. */
  function Trim(s: string): (r: string)
    ensures |r| <= |s|
    ensures var i := TrimStartLength(s, 0);
      && i + |r| <= |s| && r == s[i..i + |r|]
      && AllWhitespace(s[..i]) && AllWhitespace(s[i + |r|..])
    ensures r == [] || (!IsWhitespace(r[0]) && !IsWhitespace(r[|r| - 1]))
    ensures |r| == 0 <==> AllWhitespace(s)
  {
    TrimIsSlice(s);
    TrimEmpty(s);
    TrimEnd(TrimStart(s))
  }

  /** Trimming both ends keeps a slice of `s` framed by whitespace. */
  lemma TrimIsSlice(s: string)
    ensures var r := TrimEnd(TrimStart(s)); var i := TrimStartLength(s, 0);
      && i + |r| <= |s| && r == s[i..i + |r|]
      && AllWhitespace(s[..i]) && AllWhitespace(s[i + |r|..])
      && (r == [] || (!IsWhitespace(r[0]) && !IsWhitespace(r[|r| - 1])))
  {
    var t := TrimStart(s);
    var r := TrimEnd(t);
    var k := |s| - |t|;
    assert k == TrimStartLength(s, 0) && t == s[k..];
    assert r == s[k..k + |r|];
    assert s[k + |r|..] == t[|r|..];
    assert r != [] ==> r[0] == t[0];
  }

  /** Trimming both ends leaves nothing exactly when `s` is all whitespace. */
  lemma TrimEmpty(s: string)
    ensures TrimEnd(TrimStart(s)) == [] <==> AllWhitespace(s)
  {
    var t := TrimStart(s);
    var r := TrimEnd(t);
    var k := |s| - |t|;
    assert r == [] ==> AllWhitespace(t) by {
      assert r == [] ==> t[|r|..] == t;
    }
    assert AllWhitespace(t) ==> t == [];
    assert AllWhitespace(s) <==> t == [] by {
      assert forall j :: 0 <= j < k ==> IsWhitespace(s[j]) by {
        assert forall j :: 0 <= j < k ==> s[j] == s[..k][j];
      }
      assert t != [] ==> s[k] == t[0];
    }
  }

  /** `TrimEnd` is the one prefix whose rest is all whitespace and which does
      not itself end in whitespace. */
  lemma TrimEndIs(s: string, r: string)
    requires |r| <= |s| && r == s[..|r|]
    requires AllWhitespace(s[|r|..])
    requires r == [] || !IsWhitespace(r[|r| - 1])
    ensures TrimEnd(s) == r
  {
    var t := TrimEnd(s);
    assert forall j :: |t| <= j < |s| ==> IsWhitespace(s[j]) by {
      assert forall j :: |t| <= j < |s| ==> s[j] == s[|t|..][j - |t|];
    }
    assert forall j :: |r| <= j < |s| ==> IsWhitespace(s[j]) by {
      assert forall j :: |r| <= j < |s| ==> s[j] == s[|r|..][j - |r|];
    }
    assert |r| > 0 ==> s[|r| - 1] == r[|r| - 1];
    assert |t| > 0 ==> s[|t| - 1] == t[|t| - 1];
    assert |t| == |r|;
  }

  /** Trailing whitespace of an appended piece is all `trimEnd` removes, unless
      the piece is all whitespace, in which case it trims into the front part. */
  lemma TrimEndAppend(x: string, y: string)
    ensures TrimEnd(x + y) == if AllWhitespace(y) then TrimEnd(x) else x + TrimEnd(y)
  {
    var s := x + y;
    if AllWhitespace(y) {
      var r := TrimEnd(x);
      assert s[..|r|] == x[..|r|];
      assert AllWhitespace(s[|r|..]) by {
        forall i | 0 <= i < |s| - |r| ensures IsWhitespace(s[|r|..][i]) {
          if i + |r| < |x| {
            assert s[|r|..][i] == x[|r|..][i];
          } else {
            assert s[|r|..][i] == y[i + |r| - |x|];
          }
        }
      }
      TrimEndIs(s, r);
    } else {
      var ty := TrimEnd(y);
      var r := x + ty;
      assert ty != [] by {
        assert y[0..] == y;
      }
      assert s[..|r|] == r by {
        assert y[..|ty|] == ty;
      }
      assert s[|r|..] == y[|ty|..];
      assert r[|r| - 1] == ty[|ty| - 1];
      TrimEndIs(s, r);
    }
  }

  /** With nothing to trim at the front, `trim` is `trimEnd`. */
  lemma TrimNoLeading(s: string)
    requires |s| > 0 && !IsWhitespace(s[0])
    ensures Trim(s) == TrimEnd(s)
  {
    assert TrimStartLength(s, 0) == 0;
    assert s[0..] == s;
  }

  /** With nothing to trim at the end, `trimEnd` leaves the string as it is. */
  lemma TrimEndNoTrailing(s: string)
    requires |s| > 0 && !IsWhitespace(s[|s| - 1])
    ensures TrimEnd(s) == s
  {
    assert s[..|s|] == s;
    assert AllWhitespace(s[|s|..]);
    TrimEndIs(s, s);
  }

  /** A leading space does not change whether a string is all whitespace. */
  lemma SpaceAllWhitespace(x: string)
    ensures AllWhitespace(" " + x) <==> AllWhitespace(x)
  {
    var y := " " + x;
    assert forall i :: 0 <= i < |x| ==> y[i + 1] == x[i];
    if AllWhitespace(x) {
      assert forall i :: 0 < i < |y| ==> y[i] == x[i - 1];
    }
  }

  /** `s.startsWith(p)`. */
  predicate StartsWith(s: string, p: string) {
    |p| <= |s| && s[..|p|] == p
  }

  /** `s.slice(k)` for a non-negative `k`: empty when `k` is past the end. */
  function SliceFrom(s: string, k: nat): (r: string)
    ensures |r| == if k <= |s| then |s| - k else 0
    ensures forall i :: 0 <= i < |r| ==> r[i] == s[k + i]
  {
    if k <= |s| then s[k..] else ""
  }

  predicate OccursAt(s: string, needle: string, i: int) {
    0 <= i && i + |needle| <= |s| && s[i..i + |needle|] == needle
  }

  /** The first position at or after `from` where `needle` occurs in `s`, or -1. */
  function IndexFrom(s: string, needle: string, from: nat): (r: int)
    ensures r == -1 || (from <= r && OccursAt(s, needle, r))
    ensures r == -1 ==> forall i :: from <= i ==> !OccursAt(s, needle, i)
    ensures r != -1 ==> forall i :: from <= i < r ==> !OccursAt(s, needle, i)
    decreases |s| - from
  {
    if from + |needle| > |s| then -1
    else if OccursAt(s, needle, from) then from
    else IndexFrom(s, needle, from + 1)
  }

  /** `s.indexOf(needle)`: the first position of `needle` in `s`, or -1. */
  function IndexOf(s: string, needle: string): (r: int)
    ensures r == -1 || OccursAt(s, needle, r)
    ensures r == -1 ==> forall i :: !OccursAt(s, needle, i)
    ensures r != -1 ==> forall i :: 0 <= i < r ==> !OccursAt(s, needle, i)
  {
    IndexFrom(s, needle, 0)
  }

  /** Appending text after an occurrence does not move the first occurrence. */
  lemma IndexOfAppend(s: string, t: string, needle: string)
    requires IndexOf(s, needle) != -1
    ensures IndexOf(s + t, needle) == IndexOf(s, needle)
  {
    var k := IndexOf(s, needle);
    assert (s + t)[k..k + |needle|] == s[k..k + |needle|];
    assert OccursAt(s + t, needle, k);
    forall i | 0 <= i < k && OccursAt(s + t, needle, i) ensures false {
      assert (s + t)[i..i + |needle|] == s[i..i + |needle|];
      assert OccursAt(s, needle, i);
    }
  }

  /** `ls.join(sep)`. */
  function Join(ls: seq<string>, sep: string): string {
    if |ls| == 0 then ""
    else if |ls| == 1 then ls[0]
    else ls[0] + sep + Join(ls[1..], sep)
  }

  /** Joining one more piece puts a separator before it. */
  lemma {:induction false} JoinSnoc(ls: seq<string>, x: string, sep: string)
    requires |ls| >= 1
    ensures Join(ls + [x], sep) == Join(ls, sep) + sep + x
  {
    if |ls| == 1 {
      assert ls + [x] == [ls[0], x];
    } else {
      assert (ls + [x])[1..] == ls[1..] + [x];
      JoinSnoc(ls[1..], x, sep);
    }
  }

  /** A join whose first piece is non-empty starts with that piece. */
  lemma {:induction false} JoinStartsWith(ls: seq<string>, sep: string)
    requires |ls| >= 1
    ensures StartsWith(Join(ls, sep), ls[0])
  {
    if |ls| > 1 {
      assert Join(ls, sep) == ls[0] + (sep + Join(ls[1..], sep));
    }
  }

  /** `s.split('\n')`: the pieces between line feeds, always at least one. */
  function Lines(s: string): (r: seq<string>)
    ensures |r| >= 1
    ensures forall i :: 0 <= i < |r| ==> '\n' !in r[i]
  {
    if |s| == 0 then [""]
    else
      var rest := Lines(s[1..]);
      if s[0] == '\n' then [""] + rest
      else [[s[0]] + rest[0]] + rest[1..]
  }

  /** Splitting on line feeds loses nothing: joining the pieces back gives `s`. */
  lemma {:induction false} JoinLines(s: string)
    ensures Join(Lines(s), "\n") == s
  {
    if |s| > 0 {
      var rest := Lines(s[1..]);
      JoinLines(s[1..]);
      if s[0] == '\n' {
        assert Lines(s) == [""] + rest;
        assert Join(Lines(s), "\n") == "" + "\n" + Join(rest, "\n");
      } else {
        var r := Lines(s);
        assert r[0] == [s[0]] + rest[0] && r[1..] == rest[1..];
        if |rest| == 1 {
          assert Join(r, "\n") == [s[0]] + rest[0];
        } else {
          assert Join(r, "\n") == [s[0]] + rest[0] + "\n" + Join(rest[1..], "\n");
        }
      }
    }
  }

  /** A piece without a line feed in front of more text is the first line. */
  lemma {:induction false} LinesPrefix(x: string, y: string)
    requires '\n' !in x
    ensures Lines(x + y) == [x + Lines(y)[0]] + Lines(y)[1..]
  {
    if |x| > 0 {
      LinesPrefix(x[1..], y);
      assert (x + y)[1..] == x[1..] + y;
      assert (x + y)[0] == x[0];
      assert [x[0]] + (x[1..] + Lines(y)[0]) == x + Lines(y)[0];
    } else {
      assert x + y == y;
      assert x + Lines(y)[0] == Lines(y)[0];
      assert Lines(y) == [Lines(y)[0]] + Lines(y)[1..];
    }
  }

  /** Splitting undoes joining, for lines that hold no line feed. */
  lemma {:induction false} LinesJoin(ls: seq<string>)
    requires |ls| >= 1
    requires forall i :: 0 <= i < |ls| ==> '\n' !in ls[i]
    ensures Lines(Join(ls, "\n")) == ls
  {
    if |ls| == 1 {
      LinesPrefix(ls[0], "");
      assert ls[0] + "" == ls[0];
    } else {
      var tail := Join(ls[1..], "\n");
      LinesJoin(ls[1..]);
      LinesPrefix(ls[0], "\n" + tail);
      assert ("\n" + tail)[1..] == tail;
      assert Lines("\n" + tail) == [""] + Lines(tail);
      assert ls[0] + "\n" + tail == ls[0] + ("\n" + tail);
      assert ls[0] + "" == ls[0];
    }
  }

  /** The decimal digits of `n`, as a template literal renders a number. */
  function Decimal(n: nat): (r: string)
    ensures |r| >= 1
    ensures forall i :: 0 <= i < |r| ==> '0' <= r[i] <= '9'
  {
    if n < 10 then [('0' as int + n) as char]
    else Decimal(n / 10) + [('0' as int + n % 10) as char]
  }

  /** The number a string of decimal digits denotes. */
  function DigitsValue(s: string): int {
    if s == [] then 0
    else DigitsValue(s[..|s| - 1]) * 10 + (s[|s| - 1] as int - '0' as int)
  }

  /** Reading the rendered digits back gives the number: a rendered
      placeholder names exactly the position it was rendered from. */
  lemma {:induction false} DecimalRoundTrip(n: nat)
    ensures DigitsValue(Decimal(n)) == n
  {
    if n >= 10 {
      var d := Decimal(n / 10);
      var s := d + [('0' as int + n % 10) as char];
      assert s[..|s| - 1] == d;
      DecimalRoundTrip(n / 10);
    }
  }

  /** Distinct numbers render to distinct digit strings. */
  lemma DecimalInjective(m: nat, n: nat)
    requires Decimal(m) == Decimal(n)
    ensures m == n
  {
    DecimalRoundTrip(m);
    DecimalRoundTrip(n);
  }

  /** Concatenation regroups; stated once so that callers need not prove it
      by extensionality in a context full of other facts. */
  lemma SeqAssoc<T>(x: seq<T>, y: seq<T>, z: seq<T>)
    ensures x + (y + z) == (x + y) + z
  {
  }
}
