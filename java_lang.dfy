/**
  The parts of the Java runtime and of commons-lang that the controller's
  string handling depends on: nullable references, String.length,
  Character.isWhitespace, StringUtils.isEmpty / isBlank, String.trim and
  String.split(",").
*/
module JavaLang {

  /** A Java reference that may be null. */
  datatype Option<+T> = None | Some(value: T)

  /**
    String.length(): the number of UTF-16 code units. A Dafny char is a
    Unicode scalar value; one above U+FFFF is a surrogate pair in Java.
  */
  function Utf16Length(s: string): (n: nat)
    ensures |s| <= n <= 2 * |s|
    ensures (forall i | 0 <= i < |s| :: s[i] as int <= 0xFFFF) ==> n == |s|
  {
    if s == [] then 0
    else (if s[0] as int > 0xFFFF then 2 else 1) + Utf16Length(s[1..])
  }

  /**
    Character.isWhitespace: the Unicode space, line and paragraph separators
    except the three no-break spaces (U+00A0, U+2007, U+202F), together with
    the controls U+0009..U+000D and U+001C..U+001F.
  */
  predicate IsWhitespace(c: char) {
    var n := c as int;
    || n == 0x20
    || 0x09 <= n <= 0x0D
    || 0x1C <= n <= 0x1F
    || n == 0x1680
    || 0x2000 <= n <= 0x2006
    || 0x2008 <= n <= 0x200A
    || n == 0x2028
    || n == 0x2029
    || n == 0x205F
    || n == 0x3000
  }

  /** StringUtils.isEmpty: null or of length zero. */
  predicate IsEmpty(s: Option<string>): (b: bool)
    ensures b <==> s.None? || Utf16Length(s.value) == 0
  {
    s.None? || s.value == []
  }

  /** StringUtils.isBlank: null, empty, or whitespace only. */
  predicate IsBlank(s: Option<string>): (b: bool)
    ensures IsEmpty(s) ==> b
  {
    s.None? || forall i | 0 <= i < |s.value| :: IsWhitespace(s.value[i])
  }

  /** StringUtils.isNotBlank. */
  predicate IsNotBlank(s: Option<string>): (b: bool)
    ensures b ==> s.Some? && s.value != []
  {
    !IsBlank(s)
  }

  /** String.trim strips the characters at or below U+0020 from both ends. */
  predicate IsTrimmable(c: char) {
    c <= ' '
  }

  /** A string that String.trim leaves as it is. */
  predicate IsTrimmed(s: string) {
    s == [] || (!IsTrimmable(s[0]) && !IsTrimmable(s[|s| - 1]))
  }

  /** s without its leading trimmable characters. */
  function TrimStart(s: string): (r: string)
    ensures |r| <= |s| && r == s[|s| - |r|..]
    ensures forall i | 0 <= i < |s| - |r| :: IsTrimmable(s[i])
    ensures r == [] || !IsTrimmable(r[0])
  {
    if s != [] && IsTrimmable(s[0]) then TrimStart(s[1..]) else s
  }

  /** s without its trailing trimmable characters. */
  function TrimEnd(s: string): (r: string)
    ensures |r| <= |s| && r == s[..|r|]
    ensures forall i | |r| <= i < |s| :: IsTrimmable(s[i])
    ensures r == [] || !IsTrimmable(r[|r| - 1])
  {
    if s != [] && IsTrimmable(s[|s| - 1]) then TrimEnd(s[..|s| - 1]) else s
  }

  /** String.trim(): s without its leading and trailing trimmable characters. */
  function Trim(s: string): (r: string)
    ensures |r| <= |s|
    ensures IsTrimmed(r)
  {
    var t := TrimStart(s);
    var r := TrimEnd(t);
    assert r == [] || r[0] == t[0];
    r
  }

  /**
    What String.trim keeps is the infix s[k..k + |Trim(s)|] after the k
    leading trimmable characters, and everything it cuts off is trimmable.
  */
  lemma TrimIsInfix(s: string)
    ensures var r, k := Trim(s), |s| - |TrimStart(s)|;
      && k + |r| <= |s|
      && r == s[k..k + |r|]
      && (forall i | 0 <= i < k :: IsTrimmable(s[i]))
      && (forall i | k + |r| <= i < |s| :: IsTrimmable(s[i]))
  {
    var t := TrimStart(s);
    var r := TrimEnd(t);
    var k := |s| - |t|;
    assert t == s[k..] && r == t[..|r|];
    forall i | k + |r| <= i < |s| ensures IsTrimmable(s[i]) {
      assert s[i] == t[i - k];
    }
  }

  /** Trimming a string without a comma gives a string without a comma. */
  lemma TrimCommaFree(s: string)
    requires ',' !in s
    ensures ',' !in Trim(s)
  {
    TrimIsInfix(s);
  }

  /**
    The pieces of s between its commas, empty pieces included. A comma
    starts a new piece; any other character joins the first piece.
  */
  function Segments(s: string): (r: seq<string>)
    ensures |r| >= 1
  {
    if s == [] then [[]]
    else
      var rest := Segments(s[1..]);
      if s[0] == ',' then [[]] + rest
      else [[s[0]] + rest[0]] + rest[1..]
  }

  /** No piece holds a comma. */
  lemma {:induction false} SegmentsCommaFree(s: string)
    ensures forall k | 0 <= k < |Segments(s)| :: ',' !in Segments(s)[k]
  {
    if s != [] {
      SegmentsCommaFree(s[1..]);
    }
  }

  /** The pieces joined back together with a comma between neighbours. */
  function JoinWithCommas(segs: seq<string>): string
    requires |segs| >= 1
  {
    if |segs| == 1 then segs[0]
    else segs[0] + [','] + JoinWithCommas(segs[1..])
  }

  /** segs without the empty strings at its end. */
  function DropTrailingEmpty(segs: seq<string>): seq<string> {
    if segs != [] && segs[|segs| - 1] == [] then DropTrailingEmpty(segs[..|segs| - 1])
    else segs
  }

  /**
    Dropping trailing empties keeps a prefix of the pieces, removes only
    empty ones, and leaves no empty piece at the end.
  */
  lemma {:induction false} DropTrailingEmptyPrefix(segs: seq<string>)
    ensures var r := DropTrailingEmpty(segs);
      && |r| <= |segs| && r == segs[..|r|]
      && (r == [] || r[|r| - 1] != [])
      && (forall i | |r| <= i < |segs| :: segs[i] == [])
  {
    if segs != [] && segs[|segs| - 1] == [] {
      var front := segs[..|segs| - 1];
      DropTrailingEmptyPrefix(front);
      var r := DropTrailingEmpty(front);
      assert segs[..|r|] == front[..|r|];
      assert forall i | |r| <= i < |front| :: segs[i] == front[i];
    }
  }

  /**
    String.split(","): a string without a comma comes back whole (so "" gives
    [""]); otherwise the pieces between commas, with the empty pieces at the
    end removed.
  */
  function Split(s: string): (r: seq<string>)
    ensures ',' !in s ==> r == [s]
    ensures forall k | 0 <= k < |r| :: ',' !in r[k]
    ensures ',' in s ==> r == [] || r[|r| - 1] != []
  {
    if ',' !in s then [s]
    else
      SegmentsCommaFree(s);
      DropTrailingEmptyPrefix(Segments(s));
      DropTrailingEmpty(Segments(s))
  }

  /** Pieces of a string with no comma: the string itself. */
  lemma {:induction false} SegmentsNoComma(s: string)
    requires ',' !in s
    ensures Segments(s) == [s]
  {
    if s != [] {
      assert ',' !in s[1..] by {
        forall c | c in s[1..] ensures c in s {}
      }
      SegmentsNoComma(s[1..]);
      assert [s[0]] + s[1..] == s;
    }
  }

  /** Proof step: concatenation is associative. */
  lemma ConcatAssoc<T>(a: seq<T>, b: seq<T>, c: seq<T>)
    ensures (a + b) + c == a + (b + c)
  {
  }

  /** Proof step: the head and tail of x + y when x is not empty. */
  lemma ConcatHeadTail<T>(x: seq<T>, y: seq<T>)
    requires |x| >= 1
    ensures (x + y)[0] == x[0] && (x + y)[1..] == x[1..] + y
  {
  }

  /** Proof step: one unfolding of Segments on a non-empty string. */
  lemma SegmentsUnfold(s: string)
    requires s != []
    ensures var rest := Segments(s[1..]);
      Segments(s) == if s[0] == ',' then [[]] + rest else [[s[0]] + rest[0]] + rest[1..]
  {
  }

  /** Splitting at a comma and splitting the two sides agree. */
  lemma {:induction false} SegmentsConcat(a: string, b: string)
    ensures Segments(a + [','] + b) == Segments(a) + Segments(b)
  {
    var s := a + [','] + b;
    if a == [] {
      assert s == [','] + b && s[1..] == b;
    } else {
      var tail := a[1..];
      ConcatAssoc(a, [','], b);
      ConcatHeadTail(a, [','] + b);
      ConcatAssoc(tail, [','], b);
      SegmentsConcat(tail, b);
      SegmentsUnfold(s);
      SegmentsUnfold(a);
      var st, sb := Segments(tail), Segments(b);
      if a[0] == ',' {
        ConcatAssoc([[]], st, sb);
      } else {
        ConcatHeadTail(st, sb);
        ConcatAssoc([[a[0]] + st[0]], st[1..], sb);
      }
    }
  }

  /** Proof step: joining two or more pieces gives the first, a comma, then the rest joined. */
  lemma JoinUnfold(segs: seq<string>)
    requires |segs| > 1
    ensures JoinWithCommas(segs) == segs[0] + ([','] + JoinWithCommas(segs[1..]))
  {
  }

  /** Proof step: the pieces with a character put in front of the first one. */
  lemma ConsFirst(c: char, segs: seq<string>)
    requires |segs| >= 1
    ensures var t := [[c] + segs[0]] + segs[1..];
      |t| == |segs| && t[0] == [c] + segs[0] && t[1..] == segs[1..]
  {
  }

  /** Putting a character in front of the first piece puts it in front of the joined string. */
  lemma JoinConsChar(c: char, segs: seq<string>)
    requires |segs| >= 1
    ensures JoinWithCommas([[c] + segs[0]] + segs[1..]) == [c] + JoinWithCommas(segs)
  {
    var t := [[c] + segs[0]] + segs[1..];
    ConsFirst(c, segs);
    if |segs| > 1 {
      JoinUnfold(t);
      JoinUnfold(segs);
      ConcatAssoc([c], segs[0], [','] + JoinWithCommas(segs[1..]));
    }
  }

  /** Joining the pieces gives back the string that was cut. */
  lemma {:induction false} JoinSegments(s: string)
    ensures JoinWithCommas(Segments(s)) == s
  {
    if s != [] {
      var rest := Segments(s[1..]);
      JoinSegments(s[1..]);
      if s[0] == ',' {
        assert ([[]] + rest)[1..] == rest;
        assert JoinWithCommas([[]] + rest) == [] + [','] + s[1..];
      } else {
        JoinConsChar(s[0], rest);
      }
      assert [s[0]] + s[1..] == s;
    }
  }

  /** Cutting comma-free pieces that were joined with commas gives them back. */
  lemma {:induction false} SegmentsJoin(segs: seq<string>)
    requires |segs| >= 1
    requires forall i | 0 <= i < |segs| :: ',' !in segs[i]
    ensures Segments(JoinWithCommas(segs)) == segs
  {
    if |segs| == 1 {
      SegmentsNoComma(segs[0]);
    } else {
      var head, rest := segs[0], segs[1..];
      calc {
        Segments(JoinWithCommas(segs));
        Segments(head + [','] + JoinWithCommas(rest));
        { SegmentsConcat(head, JoinWithCommas(rest)); }
        Segments(head) + Segments(JoinWithCommas(rest));
        { SegmentsNoComma(head);
          assert forall i | 0 <= i < |rest| :: rest[i] == segs[i + 1];
          SegmentsJoin(rest); }
        [head] + rest;
        { assert [head] + rest == segs; }
        segs;
      }
    }
  }
}
