/** The JSON values a handler passes to `res.json`, their text form as
    written to Redis (`JSON.stringify`) and the reading of that text
    (`JSON.parse`). Numbers are integers; strings escape only the quote
    and the backslash; the text carries no whitespace. The round-trip
    lemma `ParseStringify` is what makes a cache hit serve the very body
    stored on the miss. */
module Json {
  import opened Common

  datatype Value =
    | Null
    | Bool(b: bool)
    | Num(n: int)
    | Str(s: string)
    | Arr(items: seq<Value>)
    | Obj(fields: seq<Field>)

  /** One `"key":value` member of an object, in insertion order. */
  datatype Field = Field(key: string, val: Value)

  predicate IsDigit(c: char) {
    '0' <= c <= '9'
  }

  predicate AllDigits(s: string) {
    forall i :: 0 <= i < |s| ==> IsDigit(s[i])
  }

  function DigitChar(d: nat): (c: char)
    requires d < 10
    ensures IsDigit(c)
  {
    ('0' as int + d) as char
  }

  /** Decimal digits of `n`, most significant first, no leading zero. */
  function Digits(n: nat): (s: string)
    ensures |s| >= 1 && AllDigits(s)
  {
    if n < 10 then [DigitChar(n)] else Digits(n / 10) + [DigitChar(n % 10)]
  }

  /** The number a digit string denotes. */
  function DigitsValue(s: string): nat
    requires AllDigits(s)
  {
    if s == [] then 0
    else DigitsValue(s[..|s| - 1]) * 10 + (s[|s| - 1] as int - '0' as int)
  }

  lemma {:induction false} DigitsValueOfDigits(n: nat)
    ensures DigitsValue(Digits(n)) == n
  {
    if n >= 10 {
      DigitsValueOfDigits(n / 10);
      var s := Digits(n);
      assert s[..|s| - 1] == Digits(n / 10);
    }
  }

  /** Quote and backslash are escaped with a backslash. */
  function Escape(s: string): string {
    if s == [] then []
    else (if s[0] == '"' || s[0] == '\\' then ['\\', s[0]] else [s[0]]) + Escape(s[1..])
  }

  function Quote(s: string): string {
    ['"'] + Escape(s) + ['"']
  }

  /** `JSON.stringify(v)`: never empty, and never begins with a closing
      bracket or brace. */
  function Stringify(v: Value): (s: string)
    ensures |s| >= 1 && s[0] != ']' && s[0] != '}'
    decreases v, 1
  {
    match v
    case Null => "null"
    case Bool(b) => if b then "true" else "false"
    case Num(n) => if n < 0 then "-" + Digits(-n) else Digits(n)
    case Str(s) => Quote(s)
    case Arr(items) => "[" + Items(items) + "]"
    case Obj(fields) => "{" + Members(fields) + "}"
  }

  function Items(items: seq<Value>): string
    decreases items, 0
  {
    if items == [] then ""
    else if |items| == 1 then Stringify(items[0])
    else Stringify(items[0]) + "," + Items(items[1..])
  }

  function Member(f: Field): string
    decreases f, 0
  {
    Quote(f.key) + ":" + Stringify(f.val)
  }

  function Members(fields: seq<Field>): string
    decreases fields, 0
  {
    if fields == [] then ""
    else if |fields| == 1 then Member(fields[0])
    else Member(fields[0]) + "," + Members(fields[1..])
  }

  // ---------------------------------------------------------------------
  // Reading text back (`JSON.parse`). Each reader returns the value and
  // the text after it.

  /** Length of the longest digit prefix of `s`. */
  function TakeDigits(s: string): (k: nat)
    ensures k <= |s| && AllDigits(s[..k])
    ensures k == |s| || !IsDigit(s[k])
  {
    if s != [] && IsDigit(s[0]) then
      var k := 1 + TakeDigits(s[1..]);
      assert s[..k] == [s[0]] + s[1..][..k - 1];
      k
    else 0
  }

  function ParseNat(s: string): (r: Option<(nat, string)>)
    ensures r.Some? ==> |r.value.1| < |s|
  {
    var k := TakeDigits(s);
    if k == 0 then None else Some((DigitsValue(s[..k]), s[k..]))
  }

  /** The characters of a string literal after its opening quote, up to
      and including the closing quote. */
  function ParseStrBody(s: string): (r: Option<(string, string)>)
    ensures r.Some? ==> |r.value.1| < |s|
  {
    if s == [] then None
    else if s[0] == '"' then Some(("", s[1..]))
    else if s[0] == '\\' then
      if |s| >= 2 && (s[1] == '"' || s[1] == '\\') then
        match ParseStrBody(s[2..])
        case None => None
        case Some((t, rest)) => Some(([s[1]] + t, rest))
      else None
    else
      match ParseStrBody(s[1..])
      case None => None
      case Some((t, rest)) => Some(([s[0]] + t, rest))
  }

  function ParseValue(s: string): (r: Option<(Value, string)>)
    ensures r.Some? ==> |r.value.1| < |s|
    decreases |s|, 1
  {
    if s == [] then None
    else if s[0] == 'n' then
      if "null" <= s then Some((Null, s[4..])) else None
    else if s[0] == 't' then
      if "true" <= s then Some((Bool(true), s[4..])) else None
    else if s[0] == 'f' then
      if "false" <= s then Some((Bool(false), s[5..])) else None
    else if s[0] == '-' then
      match ParseNat(s[1..])
      case None => None
      case Some((n, rest)) => var m: int := n; Some((Num(-m), rest))
    else if IsDigit(s[0]) then
      match ParseNat(s)
      case None => None
      case Some((n, rest)) => Some((Num(n), rest))
    else if s[0] == '"' then
      match ParseStrBody(s[1..])
      case None => None
      case Some((t, rest)) => Some((Str(t), rest))
    else if s[0] == '[' then
      if |s| >= 2 && s[1] == ']' then Some((Arr([]), s[2..]))
      else
        match ParseItems(s[1..])
        case None => None
        case Some((items, rest)) => Some((Arr(items), rest))
    else if s[0] == '{' then
      if |s| >= 2 && s[1] == '}' then Some((Obj([]), s[2..]))
      else
        match ParseMembers(s[1..])
        case None => None
        case Some((fields, rest)) => Some((Obj(fields), rest))
    else None
  }

  /** One or more comma-separated values and the closing bracket. */
  function ParseItems(s: string): (r: Option<(seq<Value>, string)>)
    ensures r.Some? ==> |r.value.1| < |s|
    decreases |s|, 2
  {
    match ParseValue(s)
    case None => None
    case Some((v, rest)) =>
      if rest != [] && rest[0] == ']' then Some(([v], rest[1..]))
      else if rest != [] && rest[0] == ',' then
        match ParseItems(rest[1..])
        case None => None
        case Some((vs, rest')) => Some(([v] + vs, rest'))
      else None
  }

  /** One or more comma-separated members and the closing brace. */
  function ParseMembers(s: string): (r: Option<(seq<Field>, string)>)
    ensures r.Some? ==> |r.value.1| < |s|
    decreases |s|, 2
  {
    if s == [] || s[0] != '"' then None
    else
      match ParseStrBody(s[1..])
      case None => None
      case Some((k, afterKey)) =>
        if afterKey == [] || afterKey[0] != ':' then None
        else
          match ParseValue(afterKey[1..])
          case None => None
          case Some((v, rest)) =>
            if rest != [] && rest[0] == '}' then Some(([Field(k, v)], rest[1..]))
            else if rest != [] && rest[0] == ',' then
              match ParseMembers(rest[1..])
              case None => None
              case Some((fs, rest')) => Some(([Field(k, v)] + fs, rest'))
            else None
  }

  /** `JSON.parse(s)`: a whole text holding exactly one value. */
  function Parse(s: string): (r: Option<Value>)
    ensures r.Some? <==> ParseValue(s).Some? && ParseValue(s).value.1 == []
    ensures r.Some? ==> ParseValue(s).value.0 == r.value
  {
    match ParseValue(s)
    case Some((v, rest)) => if rest == [] then Some(v) else None
    case None => None
  }

  // ---------------------------------------------------------------------
  // Round trip

  /** What may follow a value in a text: nothing, or a character that
      cannot extend a number. */
  predicate Follows(rest: string) {
    rest == [] || !IsDigit(rest[0])
  }

  lemma {:induction false} TakeDigitsOf(d: string, rest: string)
    requires AllDigits(d) && Follows(rest)
    ensures TakeDigits(d + rest) == |d|
  {
    if d != [] {
      TakeDigitsOf(d[1..], rest);
      assert (d + rest)[1..] == d[1..] + rest;
    } else {
      assert d + rest == rest;
    }
  }

  lemma ParseNatOfDigits(n: nat, rest: string)
    requires Follows(rest)
    ensures ParseNat(Digits(n) + rest) == Some((n, rest))
  {
    var d := Digits(n);
    TakeDigitsOf(d, rest);
    assert (d + rest)[..|d|] == d;
    assert (d + rest)[|d|..] == rest;
    DigitsValueOfDigits(n);
  }

  lemma {:induction false} ParseEscaped(s: string, rest: string)
    ensures ParseStrBody(Escape(s) + ['"'] + rest) == Some((s, rest))
  {
    if s == [] {
      assert Escape(s) + ['"'] + rest == ['"'] + rest;
    } else {
      ParseEscaped(s[1..], rest);
      if s[0] == '"' || s[0] == '\\' {
        ParseEscapedSpecial(s, rest);
      } else {
        ParseEscapedPlain(s, rest);
      }
    }
  }

  /** An escaped quote or backslash is read back as that character. */
  lemma ParseEscapedSpecial(s: string, rest: string)
    requires s != [] && (s[0] == '"' || s[0] == '\\')
    requires ParseStrBody(Escape(s[1..]) + ['"'] + rest) == Some((s[1..], rest))
    ensures ParseStrBody(Escape(s) + ['"'] + rest) == Some((s, rest))
  {
    var tail := Escape(s[1..]) + ['"'] + rest;
    assert Escape(s) + ['"'] + rest == ['\\', s[0]] + tail;
    assert (['\\', s[0]] + tail)[2..] == tail;
    assert [s[0]] + s[1..] == s;
  }

  /** Any other character is read back as itself. */
  lemma ParseEscapedPlain(s: string, rest: string)
    requires s != [] && s[0] != '"' && s[0] != '\\'
    requires ParseStrBody(Escape(s[1..]) + ['"'] + rest) == Some((s[1..], rest))
    ensures ParseStrBody(Escape(s) + ['"'] + rest) == Some((s, rest))
  {
    var tail := Escape(s[1..]) + ['"'] + rest;
    assert Escape(s) + ['"'] + rest == [s[0]] + tail;
    assert ([s[0]] + tail)[1..] == tail;
    assert [s[0]] + s[1..] == s;
  }

  lemma ParseQuoted(s: string, rest: string)
    ensures ParseValue(Quote(s) + rest) == Some((Str(s), rest))
  {
    ParseEscaped(s, rest);
    assert Quote(s) + rest == ['"'] + (Escape(s) + ['"'] + rest);
  }

  /** Reading the text of a value gives back that value and leaves the
      rest of the input untouched. */
  lemma {:induction false} ParseValueStringify(v: Value, rest: string)
    requires Follows(rest)
    ensures ParseValue(Stringify(v) + rest) == Some((v, rest))
    decreases v, 1
  {
    match v
    case Null => ParseLiteral(v, rest);
    case Bool(_) => ParseLiteral(v, rest);
    case Num(n) => ParseNum(n, rest);
    case Str(s) => ParseQuoted(s, rest);
    case Arr(items) => ParseArr(items, rest);
    case Obj(fields) => ParseObj(fields, rest);
  }

  lemma ParseLiteral(v: Value, rest: string)
    requires v.Null? || v.Bool?
    ensures ParseValue(Stringify(v) + rest) == Some((v, rest))
  {
    var text := Stringify(v) + rest;
    if v.Null? {
      assert "null" <= text && text[4..] == rest;
    } else if v.b {
      assert "true" <= text && text[4..] == rest;
    } else {
      assert "false" <= text && text[5..] == rest;
    }
  }

  lemma ParseNum(n: int, rest: string)
    requires Follows(rest)
    ensures ParseValue(Stringify(Num(n)) + rest) == Some((Num(n), rest))
  {
    if n < 0 {
      ParseNegative(-n, rest);
    } else {
      ParseNonNegative(n, rest);
    }
  }

  lemma ParseNegative(m: nat, rest: string)
    requires Follows(rest)
    ensures ParseValue("-" + Digits(m) + rest) == Some((Num(-(m as int)), rest))
  {
    var d := Digits(m);
    ParseNatOfDigits(m, rest);
    Assoc("-", d, rest);
    DropHead('-', d + rest);
  }

  lemma ParseNonNegative(n: nat, rest: string)
    requires Follows(rest)
    ensures ParseValue(Digits(n) + rest) == Some((Num(n), rest))
  {
    var d := Digits(n);
    ParseNatOfDigits(n, rest);
    assert (d + rest)[0] == d[0] && IsDigit(d[0]);
  }

  lemma {:induction false} ParseArr(items: seq<Value>, rest: string)
    requires Follows(rest)
    ensures ParseValue(Stringify(Arr(items)) + rest) == Some((Arr(items), rest))
    decreases items, 2
  {
    if items == [] {
      var text := Stringify(Arr(items)) + rest;
      assert text == "[]" + rest;
      assert text[2..] == rest;
    } else {
      ParseItemsOf(items, rest);
      ArrText(items, rest);
      DropHead('[', Items(items) + "]" + rest);
    }
  }

  /** The text of a non-empty array: the bracket, then the items. */
  lemma ArrText(items: seq<Value>, rest: string)
    requires items != []
    ensures Stringify(Arr(items)) + rest == "[" + (Items(items) + "]" + rest)
    ensures Items(items) != [] && Items(items)[0] != ']'
  {
    var s := Items(items);
    Assoc("[" + s, "]", rest);
    Assoc("[", s, "]" + rest);
    Assoc(s, "]", rest);
  }

  /** How the reader treats text opening with a brace. */
  lemma ParseBrace(inner: string)
    requires inner != [] && inner[0] != '}'
    ensures ParseValue("{" + inner) ==
      match ParseMembers(inner)
      case None => None
      case Some((fields, rest)) => Some((Obj(fields), rest))
  {
    var text := "{" + inner;
    assert text[0] == '{' && text[1] == inner[0] && text[1..] == inner;
  }

  lemma {:induction false} ParseObj(fields: seq<Field>, rest: string)
    requires Follows(rest)
    ensures ParseValue(Stringify(Obj(fields)) + rest) == Some((Obj(fields), rest))
    decreases fields, 2
  {
    var text := Stringify(Obj(fields)) + rest;
    if fields == [] {
      assert text == "{}" + rest;
      assert text[2..] == rest;
    } else {
      var inner := Members(fields) + "}" + rest;
      assert text == "{" + inner;
      MembersStart(fields);
      ParseBrace(inner);
      ParseMembersOf(fields, rest);
    }
  }

  lemma {:induction false} ParseItemsOf(items: seq<Value>, rest: string)
    requires |items| >= 1
    ensures ParseItems(Items(items) + "]" + rest) == Some((items, rest))
    decreases items, 0
  {
    var text := Items(items) + "]" + rest;
    if |items| == 1 {
      ParseValueStringify(items[0], "]" + rest);
      assert text == Stringify(items[0]) + ("]" + rest);
      assert ("]" + rest)[1..] == rest;
      assert items == [items[0]];
    } else {
      var after := "," + (Items(items[1..]) + "]" + rest);
      ParseValueStringify(items[0], after);
      assert text == Stringify(items[0]) + after;
      ParseItemsOf(items[1..], rest);
      assert after[1..] == Items(items[1..]) + "]" + rest;
      assert [items[0]] + items[1..] == items;
    }
  }

  lemma {:induction false} ParseMemberOf(f: Field, rest: string)
    ensures |Member(f)| >= 1 && Member(f)[0] == '"'
    ensures ParseStrBody((Member(f) + rest)[1..]) == Some((f.key, ":" + Stringify(f.val) + rest))
  {
    var text := Member(f) + rest;
    ParseEscaped(f.key, ":" + Stringify(f.val) + rest);
    assert text == ['"'] + (Escape(f.key) + ['"'] + (":" + Stringify(f.val) + rest));
  }

  lemma MembersStart(fields: seq<Field>)
    requires |fields| >= 1
    ensures |Members(fields)| >= 1 && Members(fields)[0] == '"'
  {
    var m := Member(fields[0]);
    assert m[0] == '"';
  }

  /** Reading one member and the separator or brace after it. */
  lemma {:induction false} ParseMemberStep(f: Field, after: string)
    requires after != [] && (after[0] == '}' || after[0] == ',')
    ensures |Member(f)| >= 1 && Member(f)[0] == '"'
    ensures ParseMembers(Member(f) + after) ==
      if after[0] == '}' then Some(([f], after[1..]))
      else match ParseMembers(after[1..])
        case None => None
        case Some((fs, rest')) => Some(([f] + fs, rest'))
    decreases f, 1
  {
    var text := Member(f) + after;
    ParseMemberOf(f, after);
    var afterKey := ":" + Stringify(f.val) + after;
    assert afterKey[1..] == Stringify(f.val) + after;
    ParseValueStringify(f.val, after);
  }

  lemma {:induction false} ParseMembersOf(fields: seq<Field>, rest: string)
    requires |fields| >= 1
    ensures ParseMembers(Members(fields) + "}" + rest) == Some((fields, rest))
    decreases fields, 1
  {
    if |fields| == 1 {
      ParseLastMember(fields[0], rest);
      assert fields == [fields[0]];
    } else {
      ParseMembersOf(fields[1..], rest);
      ParseNextMember(fields, rest);
    }
  }

  /** The last member, then the closing brace. */
  lemma ParseLastMember(f: Field, rest: string)
    ensures ParseMembers(Members([f]) + "}" + rest) == Some(([f], rest))
    decreases f, 2
  {
    ParseMemberStep(f, "}" + rest);
    assert Members([f]) + "}" + rest == Member(f) + ("}" + rest);
    assert ("}" + rest)[1..] == rest;
  }

  /** A member, a comma, and members read back as `fields[1..]`. */
  lemma ParseNextMember(fields: seq<Field>, rest: string)
    requires |fields| >= 2
    requires ParseMembers(Members(fields[1..]) + "}" + rest) == Some((fields[1..], rest))
    ensures ParseMembers(Members(fields) + "}" + rest) == Some((fields, rest))
    decreases fields, 0
  {
    var inner := Members(fields[1..]) + "}" + rest;
    MembersCons(fields, rest);
    DropHead(',', inner);
    ParseMemberStep(fields[0], "," + inner);
    HeadTail(fields);
  }

  /** The text of two or more members: the first, a comma, the rest. */
  lemma MembersCons(fields: seq<Field>, rest: string)
    requires |fields| >= 2
    ensures Members(fields) + "}" + rest == Member(fields[0]) + ("," + (Members(fields[1..]) + "}" + rest))
  {
    var m, ms := Member(fields[0]), Members(fields[1..]);
    assert Members(fields) == m + "," + ms;
    Assoc(m + ",", ms, "}");
    Assoc(m + ",", ms + "}", rest);
    Assoc(m, ",", ms + "}" + rest);
  }

  lemma DropHead(c: char, s: string)
    ensures ([c] + s)[0] == c && ([c] + s)[1..] == s
  {
  }

  lemma HeadTail<T>(s: seq<T>)
    requires |s| >= 1
    ensures [s[0]] + s[1..] == s
  {
  }

  lemma Assoc(a: string, b: string, c: string)
    ensures a + b + c == a + (b + c)
  {
  }

  /** `JSON.parse(JSON.stringify(v))` is `v`. */
  lemma ParseStringify(v: Value)
    ensures Parse(Stringify(v)) == Some(v)
  {
    ParseValueStringify(v, []);
    assert Stringify(v) + [] == Stringify(v);
  }
}
