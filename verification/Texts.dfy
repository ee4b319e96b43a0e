/** Splitting a text at a separator, and joining it again. */
module Texts {

  function SplitOn(s: string, sep: char): (parts: seq<string>)
    ensures |parts| >= 1
  {
    if s == "" then [""]
    else
      var rest := SplitOn(s[1..], sep);
      if s[0] == sep then [""] + rest
      else [[s[0]] + rest[0]] + rest[1..]
  }

  function JoinWith(parts: seq<string>, sep: char): string
  {
    if |parts| == 0 then ""
    else if |parts| == 1 then parts[0]
    else parts[0] + [sep] + JoinWith(parts[1..], sep)
  }

  lemma {:induction false} SplitPrefix(part: string, rest: string, sep: char)
    requires sep !in part
    ensures SplitOn(part + rest, sep) == [part + SplitOn(rest, sep)[0]] + SplitOn(rest, sep)[1..]
  {
    if part == "" {
      assert part + rest == rest;
      assert part + SplitOn(rest, sep)[0] == SplitOn(rest, sep)[0];
    } else {
      SplitPrefix(part[1..], rest, sep);
      assert (part + rest)[0] == part[0] != sep && (part + rest)[1..] == part[1..] + rest;
      Assoc([part[0]], part[1..], SplitOn(rest, sep)[0]);
      assert [part[0]] + part[1..] == part;
    }
  }

  /** Splitting gives back the parts a text was joined from. */
  lemma {:induction false} SplitJoined(parts: seq<string>, sep: char)
    requires parts != [] && forall i | 0 <= i < |parts| :: sep !in parts[i]
    ensures SplitOn(JoinWith(parts, sep), sep) == parts
  {
    if |parts| == 1 {
      SplitPrefix(parts[0], "", sep);
      assert parts[0] + "" == parts[0];
    } else {
      SplitJoined(parts[1..], sep);
      var rest := [sep] + JoinWith(parts[1..], sep);
      SplitPrefix(parts[0], rest, sep);
      assert rest[1..] == JoinWith(parts[1..], sep);
      assert SplitOn(rest, sep) == [""] + parts[1..];
      assert parts[0] + [sep] + JoinWith(parts[1..], sep) == parts[0] + rest;
      assert parts[0] + "" == parts[0];
    }
  }

  /** Joining the parts of a text gives back the text. */
  lemma {:induction false} JoinSplit(s: string, sep: char)
    ensures JoinWith(SplitOn(s, sep), sep) == s
  {
    if s != "" {
      JoinSplit(s[1..], sep);
      var rest := SplitOn(s[1..], sep);
      assert s == [s[0]] + s[1..];
      if s[0] == sep {
        assert ([""] + rest)[1..] == rest;
      } else {
        JoinFirst([s[0]], rest, sep);
      }
    }
  }

  lemma {:induction false} JoinFirst(head: string, parts: seq<string>, sep: char)
    requires parts != []
    ensures JoinWith([head + parts[0]] + parts[1..], sep) == head + JoinWith(parts, sep)
  {
    assert ([head + parts[0]] + parts[1..])[1..] == parts[1..];
  }

  lemma {:induction false} JoinMore(parts: seq<string>, k: string, sep: char)
    requires parts != []
    ensures JoinWith(parts + [k], sep) == JoinWith(parts, sep) + [sep] + k
  {
    assert (parts + [k])[0] == parts[0] && (parts + [k])[1..] == parts[1..] + [k];
    if |parts| == 1 {
      assert parts[1..] + [k] == [k] && JoinWith([k], sep) == k;
    } else {
      JoinMore(parts[1..], k, sep);
      var first, rest := parts[0] + [sep], JoinWith(parts[1..], sep);
      Assoc(first, rest + [sep], k);
      Assoc(first, rest, [sep]);
    }
  }

  lemma {:induction false} JoinLonger(parts: seq<string>, s: string, more: string, sep: char)
    ensures JoinWith(parts + [s + more], sep) == JoinWith(parts + [s], sep) + more
  {
    if parts == [] {
      assert parts + [s] == [s] && parts + [s + more] == [s + more];
    } else {
      JoinMore(parts, s + more, sep);
      JoinMore(parts, s, sep);
      Assoc(JoinWith(parts, sep) + [sep], s, more);
    }
  }

  lemma Assoc<T>(a: seq<T>, b: seq<T>, c: seq<T>)
    ensures (a + b) + c == a + (b + c)
  {
  }
}
