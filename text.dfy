/**
 * The string assembly the requester relies on: `String.join` and the
 * append-line-then-separator loop, and a splitter used to state that joined
 * parts can be taken apart again.
 */
module Text {

  /** `String.join(sep, parts)`: the parts with `sep` between neighbours and nowhere else. */
  function Join(sep: string, parts: seq<string>): (r: string)
    ensures |parts| == 0 ==> r == ""
    ensures |parts| == 1 ==> r == parts[0]
    decreases |parts|
  {
    if |parts| == 0 then ""
    else if |parts| == 1 then parts[0]
    else parts[0] + sep + Join(sep, parts[1..])
  }

  /** Every part followed by `sep`: what appending `part` and then `sep` for each part builds. */
  function Terminated(sep: string, parts: seq<string>): (r: string)
    ensures |parts| == 0 ==> r == ""
    ensures |parts| > 0 ==> |r| >= |parts[|parts| - 1]| + |sep|
    decreases |parts|
  {
    if |parts| == 0 then "" else Terminated(sep, parts[..|parts| - 1]) + parts[|parts| - 1] + sep
  }

  /** The pieces of `s` between occurrences of `d`, empty pieces included. */
  function Split(s: string, d: char): (r: seq<string>)
    ensures |r| >= 1
    decreases |s|
  {
    if s == [] then [""]
    else if s[0] == d then [""] + Split(s[1..], d)
    else var t := Split(s[1..], d); [[s[0]] + t[0]] + t[1..]
  }

  /** Joining one more part at the end adds the separator and that part. */
  lemma {:induction false} JoinSnoc(sep: string, parts: seq<string>, last: string)
    requires |parts| > 0
    ensures Join(sep, parts + [last]) == Join(sep, parts) + sep + last
    decreases |parts|
  {
    if |parts| > 1 {
      assert (parts + [last])[1..] == parts[1..] + [last];
      JoinSnoc(sep, parts[1..], last);
    } else {
      assert (parts + [last])[1..] == [last];
    }
  }

  /**
   * The separator-terminated form is the joined form plus one trailing separator,
   * as soon as there is at least one part; with no parts both are empty.
   */
  lemma {:induction false} TerminatedIsJoinPlusSep(sep: string, parts: seq<string>)
    ensures |parts| == 0 ==> Terminated(sep, parts) == "" && Join(sep, parts) == ""
    ensures |parts| > 0 ==> Terminated(sep, parts) == Join(sep, parts) + sep
    decreases |parts|
  {
    if |parts| > 1 {
      var init, last := parts[..|parts| - 1], parts[|parts| - 1];
      assert init + [last] == parts;
      TerminatedIsJoinPlusSep(sep, init);
      JoinSnoc(sep, init, last);
      calc {
        Terminated(sep, parts);
        Terminated(sep, init) + last + sep;
        Join(sep, init) + sep + last + sep;
        Join(sep, parts) + sep;
      }
    } else if |parts| == 1 {
      assert parts[..0] == [];
    }
  }

  /** Appending one more part appends it and one more separator. */
  lemma TerminatedSnoc(sep: string, parts: seq<string>, last: string)
    ensures Terminated(sep, parts + [last]) == Terminated(sep, parts) + last + sep
  {
    assert (parts + [last])[..|parts|] == parts;
  }

  /** Splitting a piece free of `d`, followed by anything, splits off that piece first. */
  lemma {:induction false} SplitPrefix(w: string, d: char, rest: string)
    requires d !in w
    ensures Split(w + rest, d) == [w + Split(rest, d)[0]] + Split(rest, d)[1..]
    decreases |w|
  {
    var r := Split(rest, d);
    if w == [] {
      assert w + rest == rest && w + r[0] == r[0];
      assert [r[0]] + r[1..] == r;
    } else {
      var s := w + rest;
      assert s[0] == w[0] && s[0] != d && s[1..] == w[1..] + rest;
      SplitPrefix(w[1..], d, rest);
      var t := Split(s[1..], d);
      assert t == [w[1..] + r[0]] + r[1..];
      assert Split(s, d) == [[s[0]] + t[0]] + t[1..];
      assert [w[0]] + (w[1..] + r[0]) == w + r[0];
    }
  }

  /** Splitting on `d` undoes joining with `d` when no part contains `d`. */
  lemma {:induction false} SplitJoin(parts: seq<string>, d: char)
    requires |parts| >= 1
    requires forall i :: 0 <= i < |parts| ==> d !in parts[i]
    ensures Split(Join([d], parts), d) == parts
    decreases |parts|
  {
    if |parts| == 1 {
      SplitPrefix(parts[0], d, "");
      assert parts[0] + "" == parts[0];
    } else {
      var tail := Join([d], parts[1..]);
      var rest := [d] + tail;
      SplitJoin(parts[1..], d);
      assert rest[0] == d && rest[1..] == tail;
      assert Split(rest, d) == [""] + parts[1..];
      SplitPrefix(parts[0], d, rest);
      assert Join([d], parts) == parts[0] + rest;
      assert parts[0] + "" == parts[0];
      assert [parts[0]] + parts[1..] == parts;
    }
  }
}
