/** The string helpers of Go's strings package the services use, on ASCII text. */
module Text {

  predicate IsSpace(c: char) {
    c == ' ' || c == '\t' || c == '\n' || c == '\r' || c as int == 11 || c as int == 12
  }

  function TrimSpace(s: string): string {
    if s == "" then s
    else if IsSpace(s[0]) then TrimSpace(s[1..])
    else if IsSpace(s[|s| - 1]) then TrimSpace(s[..|s| - 1])
    else s
  }

  predicate AllSpaces(s: string) {
    forall i :: 0 <= i < |s| ==> IsSpace(s[i])
  }

  predicate NoOuterSpace(s: string) {
    s == "" || (!IsSpace(s[0]) && !IsSpace(s[|s| - 1]))
  }

  /** Space is dropped on both sides, nothing else is, and none is left there. */
  lemma {:induction false} TrimMeans(s: string) returns (before: string, after: string)
    ensures s == before + TrimSpace(s) + after
    ensures AllSpaces(before) && AllSpaces(after) && NoOuterSpace(TrimSpace(s))
    decreases |s|
  {
    before, after := "", "";
    if s != "" && IsSpace(s[0]) {
      before, after := TrimMeans(s[1..]);
      before := [s[0]] + before;
    } else if s != "" && IsSpace(s[|s| - 1]) {
      before, after := TrimMeans(s[..|s| - 1]);
      after := after + [s[|s| - 1]];
    }
  }

  /** Whatever space is added outside, trimming takes it off again. */
  lemma {:induction false} TrimAdded(before: string, s: string, after: string)
    requires AllSpaces(before) && AllSpaces(after) && NoOuterSpace(s)
    ensures TrimSpace(before + s + after) == s
    decreases |before| + |after|
  {
    var t := before + s + after;
    if before != "" {
      assert t[1..] == before[1..] + s + after;
      TrimAdded(before[1..], s, after);
    } else if after != "" {
      var front := after[..|after| - 1];
      assert t[..|t| - 1] == s + front && s + front == before + s + front;
      TrimAdded("", s, front);
      if IsSpace(t[0]) {
        assert s == "";
        assert t[1..] == after[1..] && after[1..] == "" + "" + after[1..];
        TrimAdded("", s, after[1..]);
      }
    } else {
      assert t == s;
    }
  }

  /** The ASCII characters that count as space: 9 to 13 and 32. */
  lemma TrimOne(c: char)
    ensures TrimSpace([c]) == if 9 <= c as int <= 13 || c as int == 32 then "" else [c]
  {
    assert [c][1..] == "";
  }

  function Upper(c: char): char {
    if 'a' <= c <= 'z' then (c as int - 32) as char else c
  }

  function ToUpper(s: string): string {
    seq(|s|, i requires 0 <= i < |s| => Upper(s[i]))
  }

  function Split(s: string, sep: char): seq<string> {
    if s == "" then [""]
    else
      var rest := Split(s[1..], sep);
      if s[0] == sep then [""] + rest else [[s[0]] + rest[0]] + rest[1..]
  }
}
