/**
  convertToList: the comma-separated key list of a get request turned into
  the list of keys to look up.
*/
module KeyList {
  import opened JavaLang

  /** What one piece contributes: its trimmed self, unless that is empty. */
  function KeyOf(seg: string): (r: seq<string>)
    ensures |r| <= 1
    ensures forall k | k in r :: k != [] && IsTrimmed(k)
  {
    var key := Trim(seg);
    if key == [] then [] else [key]
  }

  /** The non-empty trimmed pieces of segs, in their order. */
  function KeepKeys(segs: seq<string>): (r: seq<string>)
    ensures |r| <= |segs|
  {
    if segs == [] then [] else KeyOf(segs[0]) + KeepKeys(segs[1..])
  }

  /** Every kept key is non-empty and trimmed. */
  lemma {:induction false} KeepKeysTrimmed(segs: seq<string>)
    ensures forall k | k in KeepKeys(segs) :: k != [] && IsTrimmed(k)
  {
    if segs != [] {
      KeepKeysTrimmed(segs[1..]);
    }
  }

  /** Pieces without commas give keys without commas. */
  lemma {:induction false} KeepKeysCommaFree(segs: seq<string>)
    requires forall j | 0 <= j < |segs| :: ',' !in segs[j]
    ensures forall k | k in KeepKeys(segs) :: ',' !in k
  {
    if segs != [] {
      var rest := segs[1..];
      assert forall j | 0 <= j < |rest| :: rest[j] == segs[j + 1];
      KeepKeysCommaFree(rest);
      TrimCommaFree(segs[0]);
    }
  }

  /** The keys convertToList returns for the request parameter keys (which may be null). */
  function KeyListOf(keys: Option<string>): (r: seq<string>)
    ensures forall k | k in r :: k != [] && IsTrimmed(k) && ',' !in k
  {
    if IsEmpty(keys) then []
    else
      SegmentsCommaFree(keys.value);
      KeepKeysTrimmed(Segments(keys.value));
      KeepKeysCommaFree(Segments(keys.value));
      KeepKeys(Segments(keys.value))
  }

  /** Keeping keys distributes over concatenation of the pieces. */
  lemma {:induction false} KeepKeysConcat(a: seq<string>, b: seq<string>)
    ensures KeepKeys(a + b) == KeepKeys(a) + KeepKeys(b)
  {
    if a == [] {
      assert a + b == b;
    } else {
      assert (a + b)[0] == a[0];
      assert (a + b)[1..] == a[1..] + b;
      KeepKeysConcat(a[1..], b);
    }
  }

  /** Empty pieces at the end contribute no key. */
  lemma {:induction false} KeepKeysDropTrailingEmpty(segs: seq<string>)
    ensures KeepKeys(DropTrailingEmpty(segs)) == KeepKeys(segs)
  {
    if segs != [] && segs[|segs| - 1] == [] {
      var n := |segs| - 1;
      calc {
        KeepKeys(DropTrailingEmpty(segs));
        KeepKeys(DropTrailingEmpty(segs[..n]));
        { KeepKeysDropTrailingEmpty(segs[..n]); }
        KeepKeys(segs[..n]);
        { assert KeyOf(segs[n]) == []; }
        KeepKeys(segs[..n]) + KeyOf(segs[n]);
        { KeepKeysStep(segs, n); }
        KeepKeys(segs[..n + 1]);
        { assert segs[..n + 1] == segs; }
        KeepKeys(segs);
      }
    }
  }

  /** Java's removal of trailing empty strings in split does not change the keys. */
  lemma KeepKeysSplit(s: string)
    ensures KeepKeys(Split(s)) == KeepKeys(Segments(s))
  {
    if ',' !in s {
      SegmentsNoComma(s);
    } else {
      KeepKeysDropTrailingEmpty(Segments(s));
    }
  }

  /** The empty-input shortcut agrees with parsing "": no keys either way. */
  lemma KeyListOfSegments(s: string)
    ensures KeyListOf(Some(s)) == KeepKeys(Segments(s))
  {
    if s == [] {
      calc {
        KeepKeys(Segments(s));
        KeepKeys([[]]);
        { var one: seq<string> := [[]]; assert one[1..] == []; }
        KeyOf([]) + KeepKeys([]);
        { assert Trim([]) == []; }
        [];
      }
    }
  }

  /**
    The keys of "a,b" are the keys of a followed by the keys of b: the keys
    keep the order of the pieces they come from.
  */
  lemma KeyListConcat(a: string, b: string)
    ensures KeyListOf(Some(a + [','] + b)) == KeyListOf(Some(a)) + KeyListOf(Some(b))
  {
    KeyListOfSegments(a + [','] + b);
    KeyListOfSegments(a);
    KeyListOfSegments(b);
    SegmentsConcat(a, b);
    KeepKeysConcat(Segments(a), Segments(b));
  }

  /** A piece without a comma gives its trimmed self, or nothing when that is empty. */
  lemma KeyListSingle(a: string)
    requires ',' !in a
    ensures KeyListOf(Some(a)) == if Trim(a) == [] then [] else [Trim(a)]
  {
    KeyListOfSegments(a);
    SegmentsNoComma(a);
    assert [a][1..] == [];
  }

  /** The keys of the first i + 1 pieces: those of the first i, then what piece i gives. */
  lemma KeepKeysStep(segs: seq<string>, i: nat)
    requires i < |segs|
    ensures KeepKeys(segs[..i + 1]) == KeepKeys(segs[..i]) + KeyOf(segs[i])
  {
    assert segs[..i + 1] == segs[..i] + [segs[i]];
    KeepKeysConcat(segs[..i], [segs[i]]);
  }

  /** convertToList: split on ",", trim every piece, keep the non-empty ones. */
  method ConvertToList(keys: Option<string>) returns (keyList: seq<string>)
    ensures IsEmpty(keys) ==> keyList == []
    ensures keyList == KeyListOf(keys)
  {
    if IsEmpty(keys) {
      return [];
    }
    var keyArray := Split(keys.value);
    keyList := [];
    for i := 0 to |keyArray|
      invariant keyList == KeepKeys(keyArray[..i])
    {
      var key := Trim(keyArray[i]);
      KeepKeysStep(keyArray, i);
      if key != [] {
        keyList := keyList + [key];
      }
    }
    assert keyArray[..|keyArray|] == keyArray;
    KeepKeysSplit(keys.value);
  }
}
