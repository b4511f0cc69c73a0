// The pieces of Go's `strings` package that the IRC command handler uses:
// lower-casing (for case-insensitive nick matching) and splitting on commas
// (for the channel lists of JOIN and PART).
module Strings {

  /** `unicode.ToLower` restricted to ASCII: an upper-case Latin letter becomes
      its lower-case form, every other character is kept. */
  function LowerChar(c: char): char
  {
    if 'A' <= c <= 'Z' then (c as int + 32) as char else c
  }

  /** `strings.ToLower`, character by character. */
  function Lower(s: string): (r: string)
    ensures |r| == |s|
  {
    seq(|s|, i requires 0 <= i < |s| => LowerChar(s[i]))
  }

  /** A string in which no upper-case ASCII letter is left. */
  predicate IsLower(s: string)
  {
    forall i :: 0 <= i < |s| ==> !('A' <= s[i] <= 'Z')
  }

  /** Lower-casing leaves no upper-case letter, and is the identity on a
      string that has none: lower-casing twice is lower-casing once. */
  lemma LowerIsLower(s: string)
    ensures IsLower(Lower(s))
    ensures IsLower(s) ==> Lower(s) == s
    ensures Lower(Lower(s)) == Lower(s)
  {
    assert IsLower(Lower(s));
    if IsLower(s) {
      assert forall i :: 0 <= i < |s| ==> Lower(s)[i] == s[i];
    }
    assert forall i :: 0 <= i < |s| ==> Lower(Lower(s))[i] == Lower(s)[i];
  }

  /** `strings.Join(parts, ",")`. */
  function JoinComma(parts: seq<string>): string
  {
    if |parts| == 0 then ""
    else if |parts| == 1 then parts[0]
    else parts[0] + "," + JoinComma(parts[1..])
  }

  /** `strings.Split(s, ",")`: the maximal comma-free pieces of `s`, in order.
      Like Go's, it never returns an empty list: the empty string splits into
      one empty piece, and two adjacent commas leave an empty piece between them. */
  function Split(s: string): (parts: seq<string>)
    ensures |parts| >= 1
    ensures forall i :: 0 <= i < |parts| ==> ',' !in parts[i]
    ensures JoinComma(parts) == s
    decreases |s|
  {
    if |s| == 0 then [""]
    else
      var rest := Split(s[1..]);
      if s[0] == ',' then
        assert ([""] + rest)[1..] == rest;
        [""] + rest
      else
        var first := [s[0]] + rest[0];
        assert s == [s[0]] + s[1..];
        assert |rest| > 1 ==> JoinComma(rest) == rest[0] + "," + JoinComma(rest[1..]);
        assert ([first] + rest[1..])[1..] == rest[1..];
        [first] + rest[1..]
  }

  /** A comma-free string is one piece. */
  lemma {:induction false} SplitWord(w: string)
    requires ',' !in w
    ensures Split(w) == [w]
    decreases |w|
  {
    if |w| > 0 {
      SplitWord(w[1..]);
      assert [w[0]] + w[1..] == w;
    }
  }

  /** Splitting a comma-free word followed by a comma peels that word off. */
  lemma {:induction false} SplitAfterWord(w: string, t: string)
    requires ',' !in w
    ensures Split(w + "," + t) == [w] + Split(t)
    decreases |w|
  {
    var s := w + "," + t;
    if |w| == 0 {
      assert s[0] == ',' && s[1..] == t;
    } else {
      assert s[0] == w[0] && s[1..] == w[1..] + "," + t;
      SplitAfterWord(w[1..], t);
      assert [w[0]] + w[1..] == w;
    }
  }

  /** Splitting undoes joining: a non-empty list of comma-free pieces is
      recovered from its comma-joined string. Together with the last ensures
      of Split, joining and splitting are inverse. */
  lemma {:induction false} SplitJoinComma(parts: seq<string>)
    requires |parts| >= 1
    requires forall i :: 0 <= i < |parts| ==> ',' !in parts[i]
    ensures Split(JoinComma(parts)) == parts
    decreases |parts|
  {
    if |parts| == 1 {
      SplitWord(parts[0]);
    } else {
      SplitAfterWord(parts[0], JoinComma(parts[1..]));
      SplitJoinComma(parts[1..]);
      assert [parts[0]] + parts[1..] == parts;
    }
  }
}
