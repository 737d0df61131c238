/**
 * The JSON glue: formatting a range as a JSON array, converting JSON numbers to reals and
 * degree-minute-second arrays to angles, and the text clean-up done before parsing.
 */
module JsonUtils {
  import opened Wrappers
  import opened Angles

  // ---------------------------------------------------------------------------
  // format2jsonArray

  /** The items joined by ", " in order, built the way the loop builds it: each item after the separator that follows the previous one. */
  function Joined(items: seq<string>): string
  {
    if |items| == 0 then ""
    else if |items| == 1 then items[0]
    else Joined(items[..|items| - 1]) + ", " + items[|items| - 1]
  }

  /** An independent reference: the first item, then ", " before each of the others. */
  function JoinedFromFront(items: seq<string>): string
  {
    if |items| == 0 then ""
    else if |items| == 1 then items[0]
    else items[0] + ", " + JoinedFromFront(items[1..])
  }

  /** The total length of the items. */
  function TotalLength(items: seq<string>): nat
  {
    if |items| == 0 then 0 else TotalLength(items[..|items| - 1]) + |items[|items| - 1]|
  }

  /** The JSON array text of already formatted items. */
  function JsonArray(items: seq<string>): string
  {
    "[" + Joined(items) + "]"
  }

  /** Both joins agree: the items appear in order with one separator between neighbours. */
  lemma {:induction false} JoinedAgrees(items: seq<string>)
    ensures Joined(items) == JoinedFromFront(items)
  {
    if |items| > 2 {
      var rest := items[1..];
      JoinedAgrees(items[..|items| - 1]);
      JoinedAgrees(rest);
      JoinedAgrees(rest[..|rest| - 1]);
      JoinedAgrees(items[..|items| - 1][1..]);
      assert items[..|items| - 1][1..] == rest[..|rest| - 1];
      assert rest[|rest| - 1] == items[|items| - 1];
      assert items[..|items| - 1][0] == items[0];
      calc {
        Joined(items);
        Joined(items[..|items| - 1]) + ", " + items[|items| - 1];
        JoinedFromFront(items[..|items| - 1]) + ", " + items[|items| - 1];
        { assert |items[..|items| - 1]| >= 2; }
        items[0] + ", " + JoinedFromFront(items[..|items| - 1][1..]) + ", " + items[|items| - 1];
        items[0] + ", " + (Joined(rest[..|rest| - 1]) + ", " + rest[|rest| - 1]);
        items[0] + ", " + Joined(rest);
        items[0] + ", " + JoinedFromFront(rest);
      }
    } else if |items| == 2 {
      assert items[..1] == [items[0]];
      assert items[1..] == [items[1]];
    }
  }

  /**
   * The array text is bracketed, "[]" when there are no items, and otherwise holds exactly the
   * items' characters plus n - 1 separators of two characters each: no trailing separator.
   */
  lemma {:induction false} JsonArrayShape(items: seq<string>)
    ensures var s := JsonArray(items); |s| >= 2 && s[0] == '[' && s[|s| - 1] == ']'
    ensures items == [] ==> JsonArray(items) == "[]"
    ensures |items| > 0 ==> |JsonArray(items)| == 2 + TotalLength(items) + 2 * (|items| - 1)
  {
    if |items| > 0 {
      JoinedLength(items);
    }
  }

  lemma {:induction false} JoinedLength(items: seq<string>)
    requires |items| > 0
    ensures |Joined(items)| == TotalLength(items) + 2 * (|items| - 1)
  {
    if |items| > 1 {
      JoinedLength(items[..|items| - 1]);
    } else {
      assert items[..0] == [];
    }
  }

  /** The formatted items of an iterator range [first, last), the iterator handed to the converter. */
  function ConvertedItems(first: int, last: int, conv: int -> string): (items: seq<string>)
    requires first <= last
    ensures |items| == last - first
    ensures forall i :: 0 <= i < |items| ==> items[i] == conv(first + i)
    decreases last - first
  {
    if first == last then [] else ConvertedItems(first, last - 1, conv) + [conv(last - 1)]
  }

  /** The formatted elements of positions [first, last) of a container, each written with its own output operator. */
  function ShownItems<T>(xs: seq<T>, first: int, last: int, show: T -> string): (items: seq<string>)
    requires 0 <= first <= last <= |xs|
    ensures |items| == last - first
    ensures forall i :: 0 <= i < |items| ==> items[i] == show(xs[first + i])
    decreases last - first
  {
    if first == last then [] else ShownItems(xs, first, last - 1, show) + [show(xs[last - 1])]
  }

  /** The text after the item at position k (0-based) of n has been written: a separator follows every item but the last. */
  function Written(items: seq<string>, k: nat): string
    requires k <= |items|
  {
    "[" + Joined(items[..k]) + (if 0 < k < |items| then ", " else "")
  }

  lemma WrittenNext(items: seq<string>, k: nat)
    requires k < |items|
    ensures Written(items, k) + items[k] + (if k + 1 != |items| then ", " else "") == Written(items, k + 1)
  {
    assert items[..k + 1][..k] == items[..k];
    if k == 0 {
      assert items[..1] == [items[0]];
    }
  }

  /**
   * internal::format2jsonArray(begin, end, conv): writes conv(iter) for each iterator, with ", "
   * after every item but the last, between brackets.
   */
  method FormatWith(first: int, last: int, conv: int -> string) returns (s: string)
    requires first <= last
    ensures s == JsonArray(ConvertedItems(first, last, conv))
  {
    ghost var items := ConvertedItems(first, last, conv);
    s := "[";
    var iter := first;
    while iter != last
      invariant first <= iter <= last
      invariant s == Written(items, iter - first)
      decreases last - iter
    {
      WrittenNext(items, iter - first);
      s := s + conv(iter);
      if iter + 1 != last {
        s := s + ", ";
      }
      iter := iter + 1;
    }
    assert items[..last - first] == items;
    s := s + "]";
  }

  /** internal::format2jsonArray(begin, end): the same loop, writing each element with its output operator. */
  method Format<T>(xs: seq<T>, first: int, last: int, show: T -> string) returns (s: string)
    requires 0 <= first <= last <= |xs|
    ensures s == JsonArray(ShownItems(xs, first, last, show))
  {
    ghost var items := ShownItems(xs, first, last, show);
    s := "[";
    var iter := first;
    while iter != last
      invariant first <= iter <= last
      invariant s == Written(items, iter - first)
      decreases last - iter
    {
      WrittenNext(items, iter - first);
      s := s + show(xs[iter]);
      if iter + 1 != last {
        s := s + ", ";
      }
      iter := iter + 1;
    }
    assert items[..last - first] == items;
    s := s + "]";
  }

  /** format2jsonArray(range): the begin/end overload over the whole range. */
  method FormatRange<T>(xs: seq<T>, show: T -> string) returns (s: string)
    ensures s == JsonArray(ShownItems(xs, 0, |xs|, show))
  {
    s := Format(xs, 0, |xs|, show);
  }

  /** format2jsonArray(range, conv): the converter overload over the whole range. */
  method FormatRangeWith<T>(xs: seq<T>, conv: int -> string) returns (s: string)
    ensures s == JsonArray(ConvertedItems(0, |xs|, conv))
  {
    s := FormatWith(0, |xs|, conv);
  }

  /** With a converter that dereferences the iterator and writes the element, the two overloads produce the same text. */
  lemma DereferencingAgrees<T>(xs: seq<T>, first: int, last: int, show: T -> string, conv: int -> string)
    requires 0 <= first <= last <= |xs|
    requires forall i :: first <= i < last ==> conv(i) == show(xs[i])
    ensures JsonArray(ConvertedItems(first, last, conv)) == JsonArray(ShownItems(xs, first, last, show))
  {
    assert ConvertedItems(first, last, conv) == ShownItems(xs, first, last, show);
  }

  // ---------------------------------------------------------------------------
  // enforce2double and enforce2angle

  /** The kinds of a JSON value; arrays and objects are not inspected here. */
  datatype JsonValue = JDouble(d: real) | JInt64(i: int) | JUint64(u: nat) | JBool(b: bool) | JString(s: string) | JNull | JOther

  /** Whether a value holds one of the three number kinds. */
  predicate IsNumber(v: JsonValue)
  {
    v.JDouble? || v.JInt64? || v.JUint64?
  }

  /** enforce2double: a double as it is, then an int64, then a uint64, and NaN (`None`) for anything else. */
  function Enforce2Double(v: JsonValue): (r: Option<real>)
    ensures r.Some? <==> IsNumber(v)
  {
    if v.JDouble? then Some(v.d)
    else if v.JInt64? then Some(v.i as real)
    else if v.JUint64? then Some(v.u as real)
    else None
  }

  /** A number written in any of the three kinds converts to the same real. */
  lemma Enforce2DoubleKindFree(n: nat)
    ensures Enforce2Double(JInt64(n)) == Enforce2Double(JUint64(n)) == Enforce2Double(JDouble(n as real)) == Some(n as real)
  {
  }

  /** Whether every element of an array is a number. */
  predicate AllNumbers(arr: seq<JsonValue>)
  {
    forall i :: 0 <= i < |arr| ==> IsNumber(arr[i])
  }

  /** The reals of an all-number array. */
  function NumbersOf(arr: seq<JsonValue>): (xs: seq<real>)
    requires AllNumbers(arr)
    ensures |xs| == |arr|
    ensures forall i :: 0 <= i < |arr| ==> Some(xs[i]) == Enforce2Double(arr[i])
  {
    seq(|arr|, i requires 0 <= i < |arr| => Enforce2Double(arr[i]).value)
  }

  /**
   * enforce2angle: dms2rad over the converted elements. More than three elements is a range
   * error; a non-number element is NaN, which dms2rad carries into the angle (`NonFinite`).
   */
  method Enforce2Angle(arr: seq<JsonValue>) returns (r: Result<Angle>)
    ensures |arr| > 3 <==> r == Err(RangeError)
    ensures |arr| <= 3 && !AllNumbers(arr) <==> r == Err(NonFinite)
    ensures |arr| <= 3 && AllNumbers(arr) ==> r == Ok(Angle(DmsValue(NumbersOf(arr))))
  {
    if |arr| > 3 {
      return Err(RangeError);
    }
    if !AllNumbers(arr) {
      return Err(NonFinite);
    }
    var rad := DmsToRad(NumbersOf(arr));
    return Ok(Angle(rad.value));
  }

  // ---------------------------------------------------------------------------
  // preprocessJsonStr

  /** Whether pat occurs in s at position i. */
  predicate OccursAt(s: string, pat: string, i: nat)
  {
    i + |pat| <= |s| && s[i..i + |pat|] == pat
  }

  /** Whether pat occurs anywhere in s. */
  ghost predicate Occurs(s: string, pat: string)
  {
    exists i: nat :: OccursAt(s, pat, i)
  }

  /** boost::replace_all: occurrences of a non-empty pattern replaced left to right, scanning on after each replacement. */
  function ReplaceAll(s: string, pat: string, rep: string): string
    requires |pat| > 0
    decreases |s|
  {
    if |s| < |pat| then s
    else if s[..|pat|] == pat then rep + ReplaceAll(s[|pat|..], pat, rep)
    else [s[0]] + ReplaceAll(s[1..], pat, rep)
  }

  /** A string in which the pattern does not occur is left as it is. */
  lemma {:induction false} ReplaceAllAbsent(s: string, pat: string, rep: string)
    requires |pat| > 0 && !Occurs(s, pat)
    ensures ReplaceAll(s, pat, rep) == s
  {
    if |s| >= |pat| {
      assert !OccursAt(s, pat, 0);
      assert !Occurs(s[1..], pat) by {
        forall i: nat | OccursAt(s[1..], pat, i)
          ensures false
        {
          assert s[1..][i..i + |pat|] == s[i + 1..i + 1 + |pat|];
          assert OccursAt(s, pat, i + 1);
        }
      }
      ReplaceAllAbsent(s[1..], pat, rep);
    }
  }

  /** A character that is in neither the string nor the replacement is not in the result. */
  lemma {:induction false} ReplaceAllKeepsOut(s: string, pat: string, rep: string, c: char)
    requires |pat| > 0 && c !in s && c !in rep
    ensures c !in ReplaceAll(s, pat, rep)
  {
    if |s| >= |pat| {
      if s[..|pat|] == pat {
        ReplaceAllKeepsOut(s[|pat|..], pat, rep, c);
      } else {
        ReplaceAllKeepsOut(s[1..], pat, rep, c);
      }
    }
  }

  /** A replacement as long as the pattern keeps the length. */
  lemma {:induction false} ReplaceAllSameLength(s: string, pat: string, rep: string)
    requires |pat| > 0 && |rep| == |pat|
    ensures |ReplaceAll(s, pat, rep)| == |s|
  {
    if |s| >= |pat| {
      if s[..|pat|] == pat {
        ReplaceAllSameLength(s[|pat|..], pat, rep);
      } else {
        ReplaceAllSameLength(s[1..], pat, rep);
      }
    }
  }

  /** An independent reference for removing one character: keep every other character, in order. */
  function Without(s: string, c: char): (r: string)
  {
    if |s| == 0 then []
    else (if s[0] == c then [] else [s[0]]) + Without(s[1..], c)
  }

  /** Replacing a one-character pattern with nothing removes exactly that character. */
  lemma {:induction false} ReplaceAllRemoves(s: string, c: char)
    ensures ReplaceAll(s, [c], "") == Without(s, c)
    ensures c !in Without(s, c)
    ensures forall d :: d != c ==> (d in s <==> d in Without(s, c))
  {
    if |s| > 0 {
      ReplaceAllRemoves(s[1..], c);
      assert s[..1] == [s[0]];
      assert s == [s[0]] + s[1..];
    }
  }

  /**
   * preprocessJsonStr: drop every '+'; then, unless infinities and NaN are allowed, replace "nan"
   * and then "NaN" by "null", or, when they are allowed, replace "nan" by "NaN".
   */
  method PreprocessJsonStr(str: string, allowInfinityAndNan: bool) returns (s: string)
    ensures '+' !in s
    ensures !allowInfinityAndNan ==> s == ReplaceAll(ReplaceAll(Without(str, '+'), "nan", "null"), "NaN", "null")
    ensures allowInfinityAndNan ==> s == ReplaceAll(Without(str, '+'), "nan", "NaN")
    ensures allowInfinityAndNan ==> |s| == |Without(str, '+')|
    ensures '+' !in str && !Occurs(str, "nan") && !Occurs(str, "NaN") ==> s == str
  {
    s := ReplaceAll(str, "+", "");
    ReplaceAllRemoves(str, '+');
    if '+' !in str {
      ReplaceAllAbsent(str, "+", "");
      assert s == str;
    }
    if !allowInfinityAndNan {
      ghost var s0 := s;
      s := ReplaceAll(s, "nan", "null");
      ReplaceAllKeepsOut(s0, "nan", "null", '+');
      ghost var s1 := s;
      s := ReplaceAll(s, "NaN", "null");
      ReplaceAllKeepsOut(s1, "NaN", "null", '+');
      if '+' !in str && !Occurs(str, "nan") && !Occurs(str, "NaN") {
        ReplaceAllAbsent(s0, "nan", "null");
        ReplaceAllAbsent(s1, "NaN", "null");
      }
    } else {
      ghost var s0 := s;
      s := ReplaceAll(s, "nan", "NaN");
      ReplaceAllKeepsOut(s0, "nan", "NaN", '+');
      ReplaceAllSameLength(s0, "nan", "NaN");
      if '+' !in str && !Occurs(str, "nan") {
        ReplaceAllAbsent(s0, "nan", "NaN");
      }
    }
  }
}
