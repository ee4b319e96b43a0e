/** The compact JSON text with sorted keys that cfgit hashes, and the proof that reading it as JSON
    (RFC 8259) gives back the tree it was printed from. */
module Canonical {
  import opened Orders
  import opened Texts

  /** A normalised tree: no fractions, dates or null members are left. */
  datatype Norm =
    | NNull
    | NBool(b: bool)
    | NInt(i: int)
    | NStr(s: string)
    | NArr(xs: seq<Norm>)
    | NObj(m: map<string, Norm>)

  // ----- key order -----

  /** Strict order of strings by code point. */
  predicate Below(a: string, b: string)
  {
    b != "" && (a == "" || a[0] < b[0] || (a[0] == b[0] && Below(a[1..], b[1..])))
  }

  lemma {:induction false} BelowStrict(a: string, b: string, c: string)
    ensures !(Below(a, b) && Below(b, a))
    ensures a == b || Below(a, b) || Below(b, a)
    ensures Below(a, b) && Below(b, c) ==> Below(a, c)
  {
    if a != "" && b != "" && a[0] == b[0] {
      BelowStrict(a[1..], b[1..], if c == "" then "" else c[1..]);
      assert a == [a[0]] + a[1..] && b == [b[0]] + b[1..];
    }
  }

  lemma BelowIsTotal()
    ensures StrictTotal(Below)
  {
    forall a: string, b: string, c: string
      ensures !(Below(a, b) && Below(b, a)) && (a == b || Below(a, b) || Below(b, a))
      ensures Below(a, b) && Below(b, c) ==> Below(a, c)
    {
      BelowStrict(a, b, c);
    }
  }

  /** Keys in the order the text lists them, whatever order they were inserted in. */
  function SortedKeys(s: set<string>): (keys: seq<string>)
    ensures forall k :: k in keys <==> k in s
    ensures forall i, j | 0 <= i < j < |keys| :: keys[i] != keys[j]
  {
    BelowIsTotal();
    var keys := Sorted(s, Below);
    assert forall i, j | 0 <= i < j < |keys| :: Below(keys[i], keys[j]);
    keys
  }

  // ----- printing -----

  function Digit(n: nat): char
    requires n < 16
  {
    "0123456789abcdef"[n]
  }

  function Digits(n: nat): (s: string)
    ensures |s| >= 1
  {
    if n < 10 then [Digit(n)] else Digits(n / 10) + [Digit(n % 10)]
  }

  function IntText(i: int): string
  {
    if i < 0 then "-" + Digits(-i) else Digits(i)
  }

  function EscapeChar(c: char): string
  {
    if c == '"' then "\\\""
    else if c == '\\' then "\\\\"
    else if c == '\U{0008}' then "\\b"
    else if c == '\U{000C}' then "\\f"
    else if c == '\n' then "\\n"
    else if c == '\r' then "\\r"
    else if c == '\t' then "\\t"
    else if c as int < 32 then "\\u00" + [Digit(c as int / 16), Digit(c as int % 16)]
    else [c]
  }

  /** The escaped characters of `s` and the closing quote. */
  function Escaped(s: string): string
  {
    if s == "" then "\"" else EscapeChar(s[0]) + Escaped(s[1..])
  }

  function Quote(s: string): string
  {
    "\"" + Escaped(s)
  }

  function Text(t: Norm): string
    decreases t
  {
    match t
    case NNull => "null"
    case NBool(b) => if b then "true" else "false"
    case NInt(i) => IntText(i)
    case NStr(s) => Quote(s)
    case NArr(xs) => "[" + Items(xs)
    case NObj(m) => "{" + Members(t, SortedKeys(m.Keys))
  }

  /** The items of an array and its closing bracket. */
  function Items(xs: seq<Norm>): string
    decreases xs
  {
    if xs == [] then "]"
    else Text(xs[0]) + (if |xs| == 1 then "]" else "," + Items(xs[1..]))
  }

  /** The members of `t` named by `keys` and the closing brace. */
  function Members(t: Norm, keys: seq<string>): string
    requires t.NObj? && forall k | k in keys :: k in t.m
    decreases t, |keys|
  {
    if keys == [] then "}"
    else Quote(keys[0]) + ":" + Text(t.m[keys[0]]) + (if |keys| == 1 then "}" else "," + Members(t, keys[1..]))
  }

  // ----- reading JSON without white space -----

  /** What a reader got, and the text that follows it. */
  datatype Read<T> = Malformed | Got(value: T, rest: string)

  predicate IsDigit(c: char)
  {
    '0' <= c <= '9'
  }

  predicate IsHex(c: char)
  {
    IsDigit(c) || 'a' <= c <= 'f' || 'A' <= c <= 'F'
  }

  function HexValue(c: char): (n: nat)
    requires IsHex(c)
    ensures n < 16
  {
    if IsDigit(c) then c as int - '0' as int
    else if 'a' <= c then c as int - 'a' as int + 10
    else c as int - 'A' as int + 10
  }

  predicate At(s: string, c: char)
  {
    s != "" && s[0] == c
  }

  /** The characters that have an escape of one letter (section 7). */
  const SHORT_ESCAPES: map<char, char> :=
    map['"' := '"', '\\' := '\\', '/' := '/', 'b' := '\U{0008}', 'f' := '\U{000C}', 'n' := '\n', 'r' := '\r', 't' := '\t']

  /** Four hexadecimal digits. A surrogate is no character. */
  function ReadHex(s: string): (r: Read<char>)
    ensures r.Got? ==> |r.rest| < |s|
  {
    if |s| < 4 || !IsHex(s[0]) || !IsHex(s[1]) || !IsHex(s[2]) || !IsHex(s[3]) then Malformed
    else
      var n := 4096 * HexValue(s[0]) + 256 * HexValue(s[1]) + 16 * HexValue(s[2]) + HexValue(s[3]);
      if 0xD800 <= n < 0xE000 then Malformed else Got(n as char, s[4..])
  }

  /** One character of a string; the closing quote is none (section 7). */
  function ReadChar(s: string): (r: Read<char>)
    ensures r.Got? ==> |r.rest| < |s|
  {
    if s == "" || s[0] == '"' || s[0] as int < 32 then Malformed
    else if s[0] != '\\' then Got(s[0], s[1..])
    else if |s| == 1 then Malformed
    else if s[1] == 'u' then ReadHex(s[2..])
    else if s[1] in SHORT_ESCAPES then Got(SHORT_ESCAPES[s[1]], s[2..])
    else Malformed
  }

  /** A string after its opening quote. */
  function ReadString(s: string): (r: Read<string>)
    ensures r.Got? ==> |r.rest| < |s|
    decreases |s|
  {
    if At(s, '"') then Got("", s[1..])
    else
      var first := ReadChar(s);
      if first.Malformed? then Malformed
      else
        var more := ReadString(first.rest);
        if more.Malformed? then Malformed else Got([first.value] + more.value, more.rest)
  }

  function ReadDigits(s: string, sofar: nat): (r: Read<nat>)
    ensures r.Got? && |r.rest| <= |s|
    decreases |s|
  {
    if s == "" || !IsDigit(s[0]) then Got(sofar, s)
    else ReadDigits(s[1..], sofar * 10 + HexValue(s[0]))
  }

  /** Digits with no leading zero (section 6). */
  function ReadNat(s: string): (r: Read<nat>)
    ensures r.Got? ==> |r.rest| < |s|
  {
    if s == "" || !IsDigit(s[0]) || (s[0] == '0' && |s| > 1 && IsDigit(s[1])) then Malformed
    else ReadDigits(s[1..], HexValue(s[0]))
  }

  function ReadInt(s: string): (r: Read<Norm>)
    ensures r.Got? ==> |r.rest| < |s|
  {
    var n := ReadNat(if At(s, '-') then s[1..] else s);
    if n.Malformed? then Malformed
    else Got(NInt(if At(s, '-') then 0 - n.value else n.value), n.rest)
  }

  function ReadValue(s: string): (r: Read<Norm>)
    ensures r.Got? ==> |r.rest| < |s|
    decreases |s|, 0
  {
    if "null" <= s then Got(NNull, s[4..])
    else if "true" <= s then Got(NBool(true), s[4..])
    else if "false" <= s then Got(NBool(false), s[5..])
    else if "[]" <= s then Got(NArr([]), s[2..])
    else if "{}" <= s then Got(NObj(map[]), s[2..])
    else if At(s, '"') then
      var x := ReadString(s[1..]);
      if x.Malformed? then Malformed else Got(NStr(x.value), x.rest)
    else if At(s, '[') then
      var xs := ReadItems(s[1..]);
      if xs.Malformed? then Malformed else Got(NArr(xs.value), xs.rest)
    else if At(s, '{') then
      var m := ReadMembers(s[1..]);
      if m.Malformed? then Malformed else Got(NObj(Table(m.value)), m.rest)
    else ReadInt(s)
  }

  /** The items of an array that is not empty, and its closing bracket. */
  function ReadItems(s: string): (r: Read<seq<Norm>>)
    ensures r.Got? ==> |r.rest| < |s|
    decreases |s|, 1
  {
    var x := ReadValue(s);
    if x.Malformed? then Malformed
    else if At(x.rest, ']') then Got([x.value], x.rest[1..])
    else if !At(x.rest, ',') then Malformed
    else
      var more := ReadItems(x.rest[1..]);
      if more.Malformed? then Malformed else Got([x.value] + more.value, more.rest)
  }

  function ReadMember(s: string): (r: Read<(string, Norm)>)
    ensures r.Got? ==> |r.rest| < |s|
    decreases |s|, 1
  {
    var k := if At(s, '"') then ReadString(s[1..]) else Malformed;
    if k.Malformed? || !At(k.rest, ':') then Malformed
    else
      var v := ReadValue(k.rest[1..]);
      if v.Malformed? then Malformed else Got((k.value, v.value), v.rest)
  }

  /** The members of an object that is not empty, in the order of the text, and its closing brace. */
  function ReadMembers(s: string): (r: Read<seq<(string, Norm)>>)
    ensures r.Got? ==> |r.rest| < |s|
    decreases |s|, 2
  {
    var x := ReadMember(s);
    if x.Malformed? then Malformed
    else if At(x.rest, '}') then Got([x.value], x.rest[1..])
    else if !At(x.rest, ',') then Malformed
    else
      var more := ReadMembers(x.rest[1..]);
      if more.Malformed? then Malformed else Got([x.value] + more.value, more.rest)
  }

  /** The object with these members; of two with the same name the later one counts. */
  function Table(members: seq<(string, Norm)>): map<string, Norm>
  {
    if members == [] then map[] else map[members[0].0 := members[0].1] + Table(members[1..])
  }

  // ----- what is printed is read back -----

  /** Text that may follow a number. */
  predicate Closes(s: string)
  {
    s != "" ==> !IsDigit(s[0])
  }

  lemma HexBack(n: nat)
    requires n < 16
    ensures IsHex(Digit(n)) && HexValue(Digit(n)) == n && (n < 10 ==> IsDigit(Digit(n)))
  {
  }

  lemma ControlBack(c: char, r: string)
    requires c as int < 32
    ensures ReadHex("00" + [Digit(c as int / 16), Digit(c as int % 16)] + r) == Got(c, r)
  {
    var s := "00" + [Digit(c as int / 16), Digit(c as int % 16)] + r;
    assert s[4..] == r;
    HexBack(0);
    HexBack(c as int / 16);
    HexBack(c as int % 16);
  }

  lemma CharBack(c: char, r: string)
    ensures ReadChar(EscapeChar(c) + r) == Got(c, r)
  {
    hide ReadHex;
    var s := EscapeChar(c) + r;
    assert s[|EscapeChar(c)|..] == r;
    if |EscapeChar(c)| == 6 {
      ControlBack(c, r);
      assert s[2..] == "00" + [Digit(c as int / 16), Digit(c as int % 16)] + r;
    }
  }

  lemma {:induction false} StringBack(x: string, r: string)
    ensures ReadString(Escaped(x) + r) == Got(x, r)
  {
    if x == "" {
      assert (Escaped(x) + r)[1..] == r;
    } else {
      Assoc(EscapeChar(x[0]), Escaped(x[1..]), r);
      CharBack(x[0], Escaped(x[1..]) + r);
      StringBack(x[1..], r);
      assert x == [x[0]] + x[1..];
    }
  }

  lemma {:induction false} DigitsStart(n: nat)
    ensures IsDigit(Digits(n)[0]) && (Digits(n)[0] == '0' <==> n == 0)
    ensures n < 10 ==> Digits(n) == [Digit(n)]
  {
    if n >= 10 {
      DigitsStart(n / 10);
    }
  }

  lemma {:induction false} OneDigit(n: nat, r: string, sofar: nat)
    requires n < 10
    ensures ReadDigits([Digit(n)] + r, sofar) == ReadDigits(r, sofar * 10 + n)
  {
    HexBack(n);
    assert ([Digit(n)] + r)[1..] == r;
  }

  lemma {:induction false} DigitsBack(n: nat, r: string)
    ensures ReadDigits(Digits(n) + r, 0) == ReadDigits(r, n)
  {
    hide ReadDigits, Digit;
    if n < 10 {
      OneDigit(n, r, 0);
    } else {
      var last := [Digit(n % 10)];
      Assoc(Digits(n / 10), last, r);
      DigitsBack(n / 10, last + r);
      OneDigit(n % 10, r, n / 10);
    }
  }

  lemma {:induction false} NatBack(n: nat, r: string)
    requires Closes(r)
    ensures ReadNat(Digits(n) + r) == Got(n, r)
  {
    DigitsStart(n);
    DigitsBack(n, r);
    var s := Digits(n) + r;
    assert s[0] == Digits(n)[0];
    if n == 0 {
      assert s[1..] == r;
    }
  }

  lemma IntBack(i: int, r: string)
    requires Closes(r)
    ensures ReadInt(IntText(i) + r) == Got(NInt(i), r)
  {
    var n: nat := if i < 0 then -i else i;
    NatBack(n, r);
    DigitsStart(n);
    if i < 0 {
      Assoc("-", Digits(n), r);
      assert (IntText(i) + r)[1..] == Digits(n) + r;
    }
  }

  /** The first character of a text tells the kind of its tree. */
  lemma {:induction false} Starts(t: Norm)
    ensures Text(t) != ""
    ensures var c := Text(t)[0];
            match t
            case NNull => c == 'n'
            case NBool(b) => c == if b then 't' else 'f'
            case NInt(_) => c == '-' || IsDigit(c)
            case NStr(_) => c == '"'
            case NArr(_) => c == '['
            case NObj(_) => c == '{'
  {
    if t.NInt? {
      DigitsStart(if t.i < 0 then -t.i else t.i);
    }
  }

  lemma {:induction false} WordBack(word: string, r: string)
    requires word == "null" || word == "true" || word == "false"
    ensures ReadValue(word + r) ==
              Got(if word == "null" then NNull else NBool(word == "true"), r)
  {
    var s := word + r;
    assert s[|word|..] == r && s[0] == word[0];
  }

  lemma {:induction false} IntIsRead(i: int, r: string)
    requires Closes(r)
    ensures ReadValue(IntText(i) + r) == Got(NInt(i), r)
  {
    hide ReadString, ReadItems, ReadMembers, ReadInt;
    DigitsStart(if i < 0 then -i else i);
    var s := IntText(i) + r;
    assert s[0] == IntText(i)[0] && (s[0] == '-' || IsDigit(s[0]));
    IntBack(i, r);
  }

  lemma {:induction false} StringIsRead(x: string, r: string)
    ensures ReadValue(Quote(x) + r) == Got(NStr(x), r)
  {
    hide ReadString, ReadItems, ReadMembers, ReadInt, Escaped;
    var s := Quote(x) + r;
    assert s[0] == '"' && s[1..] == Escaped(x) + r;
    StringBack(x, r);
  }

  lemma {:induction false} ItemsAreRead(xs: seq<Norm>, r: string)
    requires xs != [] ==> ReadItems(Items(xs) + r) == Got(xs, r)
    ensures ReadValue("[" + Items(xs) + r) == Got(NArr(xs), r)
  {
    hide ReadString, ReadItems, ReadMembers, ReadInt, Text;
    var s := "[" + Items(xs) + r;
    assert s[0] == '[' && s[1..] == Items(xs) + r;
    if xs == [] {
      assert s[2..] == r;
    } else {
      Starts(xs[0]);
      assert s[1] == Items(xs)[0] == Text(xs[0])[0] != ']';
    }
  }

  lemma {:induction false} MembersAreRead(t: Norm, keys: seq<string>, r: string)
    requires t.NObj? && forall k | k in keys :: k in t.m
    requires keys != [] ==> ReadMembers(Members(t, keys) + r) == Got(Pairs(t, keys), r)
    ensures ReadValue("{" + Members(t, keys) + r) == Got(NObj(Table(Pairs(t, keys))), r)
  {
    hide ReadValue, ReadMembers, Text;
    var s := "{" + Members(t, keys) + r;
    assert s[0] == '{' && s[1..] == Members(t, keys) + r;
    if keys == [] {
      assert s[2..] == r;
    } else {
      assert s[1] == Members(t, keys)[0] == '"';
    }
    ObjectIsRead(s);
  }

  lemma {:induction false} ObjectIsRead(s: string)
    requires |s| > 1 && s[0] == '{'
    ensures s[1] == '}' ==> ReadValue(s) == Got(NObj(map[]), s[2..])
    ensures s[1] != '}' && ReadMembers(s[1..]).Got? ==>
              ReadValue(s) == Got(NObj(Table(ReadMembers(s[1..]).value)), ReadMembers(s[1..]).rest)
  {
    hide ReadString, ReadItems, ReadMembers, ReadInt, Table;
  }

  /** A printed tree is read back, and what follows it is left over. */
  lemma {:induction false} ValueBack(t: Norm, r: string)
    requires Closes(r)
    ensures ReadValue(Text(t) + r) == Got(t, r)
    decreases t
  {
    hide ReadValue, ReadItems, ReadMembers, IntText, Quote, Items, Members;
    match t
    case NNull => WordBack("null", r);
    case NBool(b) => WordBack(if b then "true" else "false", r);
    case NInt(i) => IntIsRead(i, r);
    case NStr(x) => StringIsRead(x, r);
    case NArr(xs) =>
      if xs != [] {
        ItemsBack(xs, r);
      }
      ItemsAreRead(xs, r);
    case NObj(m) =>
      var keys := SortedKeys(m.Keys);
      if keys != [] {
        MembersBack(t, keys, r);
      }
      MembersAreRead(t, keys, r);
      TableOf(t, keys);
      assert (map k | k in keys :: m[k]) == m;
  }

  lemma {:induction false} ItemsBack(xs: seq<Norm>, r: string)
    requires xs != []
    ensures ReadItems(Items(xs) + r) == Got(xs, r)
    decreases xs
  {
    hide Text, ReadValue;
    var rest := if |xs| == 1 then "]" else "," + Items(xs[1..]);
    Assoc(Text(xs[0]), rest, r);
    ValueBack(xs[0], rest + r);
    if |xs| == 1 {
      assert (rest + r)[1..] == r && xs == [xs[0]];
    } else {
      assert (rest + r)[1..] == Items(xs[1..]) + r && xs == [xs[0]] + xs[1..];
      ItemsBack(xs[1..], r);
    }
  }

  lemma {:induction false} MemberBack(k: string, v: Norm, r: string)
    requires Closes(r) && ReadValue(Text(v) + r) == Got(v, r)
    ensures ReadMember(Quote(k) + ":" + Text(v) + r) == Got((k, v), r)
  {
    hide Text, ReadValue, Escaped, ReadString;
    var s, rest := Quote(k) + ":" + Text(v) + r, ":" + Text(v) + r;
    assert s == Quote(k) + rest && s[1..] == Escaped(k) + rest;
    StringBack(k, rest);
    assert rest[1..] == Text(v) + r;
  }

  lemma {:induction false} MembersBack(t: Norm, keys: seq<string>, r: string)
    requires t.NObj? && keys != [] && forall k | k in keys :: k in t.m
    ensures ReadMembers(Members(t, keys) + r) == Got(Pairs(t, keys), r)
    decreases t, |keys|
  {
    hide Text, ReadValue, ReadMember, Quote;
    var k := keys[0];
    var rest := if |keys| == 1 then "}" else "," + Members(t, keys[1..]);
    ValueBack(t.m[k], rest + r);
    MemberBack(k, t.m[k], rest + r);
    assert Members(t, keys) + r == Quote(k) + ":" + Text(t.m[k]) + (rest + r);
    assert Pairs(t, keys) == [(k, t.m[k])] + Pairs(t, keys[1..]);
    if |keys| == 1 {
      assert (rest + r)[1..] == r && Pairs(t, keys) == [(k, t.m[k])];
    } else {
      assert (rest + r)[1..] == Members(t, keys[1..]) + r;
      MembersBack(t, keys[1..], r);
    }
  }

  function Pairs(t: Norm, keys: seq<string>): seq<(string, Norm)>
    requires t.NObj? && forall k | k in keys :: k in t.m
  {
    if keys == [] then [] else [(keys[0], t.m[keys[0]])] + Pairs(t, keys[1..])
  }

  lemma {:induction false} TableOf(t: Norm, keys: seq<string>)
    requires t.NObj? && forall k | k in keys :: k in t.m
    ensures Table(Pairs(t, keys)) == map k | k in keys :: t.m[k]
  {
    if keys != [] {
      TableOf(t, keys[1..]);
      assert keys == [keys[0]] + keys[1..];
    }
  }

  /** If two printed trees, each followed by text that may follow a value, agree, so do the trees and
      what follows. */
  lemma {:induction false} TextCancel(t: Norm, u: Norm, s: string, r: string)
    requires Text(t) + s == Text(u) + r && Closes(s) && Closes(r)
    ensures t == u && s == r
  {
    hide Text, ReadValue;
    ValueBack(t, s);
    ValueBack(u, r);
  }

  /** A canonical text read as JSON gives back its tree, so different trees have different texts. */
  lemma {:induction false} TextInjective(t: Norm, u: Norm)
    ensures ReadValue(Text(t)) == Got(t, "")
    ensures Text(t) == Text(u) <==> t == u
  {
    hide Text, ReadValue;
    ValueBack(t, "");
    ValueBack(u, "");
    assert Text(t) + "" == Text(t) && Text(u) + "" == Text(u);
  }

  /** A proper prefix, or smaller at the first place where they differ. */
  ghost predicate Precedes(a: string, b: string)
  {
    exists n | 0 <= n <= |a| && n < |b| :: a[..n] == b[..n] && (n == |a| || a[n] < b[n])
  }

  lemma {:induction false} SortedKeysAscend(s: set<string>)
    ensures var keys := SortedKeys(s); forall i, j | 0 <= i < j < |keys| :: Precedes(keys[i], keys[j])
  {
    hide Below, Precedes;
    BelowIsTotal();
    var keys := SortedKeys(s);
    forall i, j | 0 <= i < j < |keys| ensures Precedes(keys[i], keys[j]) {
      assert Below(keys[i], keys[j]);
      BelowPrecedes(keys[i], keys[j]);
    }
  }

  lemma {:induction false} BelowPrecedes(a: string, b: string)
    requires Below(a, b)
    ensures Precedes(a, b)
  {
    if a == "" || a[0] < b[0] {
      assert a[..0] == b[..0];
    } else {
      BelowPrecedes(a[1..], b[1..]);
      var n :| 0 <= n <= |a[1..]| && n < |b[1..]| && a[1..][..n] == b[1..][..n] &&
               (n == |a[1..]| || a[1..][n] < b[1..][n]);
      assert a[..n + 1] == [a[0]] + a[1..][..n] && b[..n + 1] == [b[0]] + b[1..][..n];
    }
  }

  /** The text of an object lists each member once, in the code point order of the names. */
  lemma KeysInOrder(m: map<string, Norm>)
    requires m != map[]
    ensures var members := ReadMembers(Text(NObj(m))[1..]);
            && members.Got? && members.rest == "" && Table(members.value) == m
            && forall i, j | 0 <= i < j < |members.value| :: Precedes(members.value[i].0, members.value[j].0)
  {
    hide ReadMembers, Members, Precedes, Pairs, Table;
    var t, keys := NObj(m), SortedKeys(m.Keys);
    assert forall k :: k in m <==> k in keys;
    TextOfObject(m);
    MembersBack(t, keys, "");
    TableOf(t, keys);
    PairsAt(t, keys);
    SortedKeysAscend(m.Keys);
  }

  lemma TextOfObject(m: map<string, Norm>)
    ensures Text(NObj(m))[1..] == Members(NObj(m), SortedKeys(m.Keys)) + ""
  {
    hide Members, SortedKeys;
  }

  lemma {:induction false} PairsAt(t: Norm, keys: seq<string>)
    requires t.NObj? && forall k | k in keys :: k in t.m
    ensures |Pairs(t, keys)| == |keys|
    ensures forall i | 0 <= i < |keys| :: Pairs(t, keys)[i] == (keys[i], t.m[keys[i]])
  {
    if keys != [] {
      PairsAt(t, keys[1..]);
    }
  }
}
