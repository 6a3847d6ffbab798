/**
 * Choosing the language of a response from an Accept-Language header: reading the ranges, the
 * single pass over them, and the choice it amounts to. Qualities are exact decimals.
 */
module Languages {
  import opened Letters
  import opened Wrappers

  datatype Lang = English | Japanese

  datatype Range = Range(tag: string, q: real)

  const MAX_RANGES := 16

  // ---- Strings ----

  predicate IsSpace(c: char)
  {
    var n := c as int;
    || n == 0x20 || 0x09 <= n <= 0x0D || n == 0x85 || n == 0xA0
    || n == 0x1680 || 0x2000 <= n <= 0x200A || n == 0x2028 || n == 0x2029 || n == 0x202F || n == 0x205F || n == 0x3000
  }

  /** The white space of Unicode. */
  lemma SpacesAre(c: char)
    ensures IsSpace(c) <==>
            c as int in {0x09, 0x0A, 0x0B, 0x0C, 0x0D, 0x20, 0x85, 0xA0, 0x1680,
                         0x2000, 0x2001, 0x2002, 0x2003, 0x2004, 0x2005, 0x2006, 0x2007, 0x2008, 0x2009, 0x200A,
                         0x2028, 0x2029, 0x202F, 0x205F, 0x3000}
  {
  }

  function TrimLeft(s: string): string
  {
    if s != "" && IsSpace(s[0]) then TrimLeft(s[1..]) else s
  }

  function TrimRight(s: string): string
  {
    if s != "" && IsSpace(s[|s| - 1]) then TrimRight(s[..|s| - 1]) else s
  }

  function Trim(s: string): string
  {
    TrimRight(TrimLeft(s))
  }

  /** The parts between the separators; there is always at least one. */
  function Split(s: string, sep: char): (parts: seq<string>)
    ensures parts != []
  {
    if s == "" then [""]
    else
      var rest := Split(s[1..], sep);
      if s[0] == sep then [""] + rest else [[s[0]] + rest[0]] + rest[1..]
  }

  function Join(parts: seq<string>, sep: char): string
    requires parts != []
  {
    if |parts| == 1 then parts[0] else parts[0] + [sep] + Join(parts[1..], sep)
  }

  lemma JoinTail(c: char, parts: seq<string>, sep: char)
    requires parts != []
    ensures Join([[c] + parts[0]] + parts[1..], sep) == [c] + Join(parts, sep)
  {
    var more := [[c] + parts[0]] + parts[1..];
    assert more[1..] == parts[1..];
  }

  predicate Unseparated(parts: seq<string>, sep: char)
  {
    forall p :: p in parts ==> sep !in p
  }

  lemma {:induction false} SplitJoins(s: string, sep: char)
    ensures Join(Split(s, sep), sep) == s && Unseparated(Split(s, sep), sep)
  {
    if s != "" {
      var rest := Split(s[1..], sep);
      SplitJoins(s[1..], sep);
      if s[0] == sep {
        assert ([""] + rest)[1..] == rest;
      } else {
        JoinTail(s[0], rest, sep);
        assert rest[0] in rest;
      }
    }
  }

  lemma {:induction false} JoinSplits(parts: seq<string>, sep: char)
    requires parts != [] && Unseparated(parts, sep)
    ensures Split(Join(parts, sep), sep) == parts
    decreases |parts|, |parts[0]|
  {
    var s := Join(parts, sep);
    if parts[0] != "" {
      var c, shorter := parts[0][0], [parts[0][1..]] + parts[1..];
      assert c in parts[0] && parts[0] in parts;
      assert [c] + shorter[0] == parts[0] && shorter[1..] == parts[1..];
      assert parts == [[c] + shorter[0]] + shorter[1..];
      JoinTail(c, shorter, sep);
      JoinSplits(shorter, sep);
      assert s[1..] == Join(shorter, sep);
    } else if |parts| > 1 {
      JoinSplits(parts[1..], sep);
      assert s[1..] == Join(parts[1..], sep);
    }
  }

  /** The parts are the only ones without a separator that joined give the string back. */
  lemma SplitExactly(s: string, sep: char, parts: seq<string>)
    requires parts != []
    ensures parts == Split(s, sep) <==> Unseparated(parts, sep) && Join(parts, sep) == s
  {
    SplitJoins(s, sep);
    if Unseparated(parts, sep) {
      JoinSplits(parts, sep);
    }
  }

  predicate Blank(s: string) { forall c :: c in s ==> IsSpace(c) }

  /** Neither end is white space. */
  predicate Trimmed(s: string)
  {
    s == "" || (!IsSpace(s[0]) && !IsSpace(s[|s| - 1]))
  }

  lemma {:induction false} TrimLeftBlank(a: string, s: string)
    requires Blank(a)
    ensures TrimLeft(a + s) == TrimLeft(s)
  {
    if a != "" {
      assert a[0] in a && (a + s)[1..] == a[1..] + s;
      TrimLeftBlank(a[1..], s);
    } else {
      assert a + s == s;
    }
  }

  lemma {:induction false} TrimRightBlank(s: string, b: string)
    requires Blank(b)
    ensures TrimRight(s + b) == TrimRight(s)
  {
    if b != "" {
      assert b[|b| - 1] in b && (s + b)[..|s + b| - 1] == s + b[..|b| - 1];
      TrimRightBlank(s, b[..|b| - 1]);
    } else {
      assert s + b == s;
    }
  }

  /** Trimming takes white space off both ends and nothing else, as much as there is. */
  lemma TrimExactly(before: string, s: string, after: string)
    requires Blank(before) && Blank(after) && Trimmed(s)
    ensures Trim(before + s + after) == s
  {
    assert before + s + after == before + (s + after);
    TrimLeftBlank(before, s + after);
    if s != "" {
      assert TrimLeft(s + after) == s + after;
      TrimRightBlank(s, after);
    } else {
      assert s + after == after + "" && after == "" + after;
      TrimLeftBlank(after, "");
    }
  }

  lemma {:induction false} TrimLeftTakes(s: string) returns (before: string)
    ensures s == before + TrimLeft(s) && Blank(before)
    ensures TrimLeft(s) == "" || !IsSpace(TrimLeft(s)[0])
  {
    before := "";
    if s != "" && IsSpace(s[0]) {
      var more := TrimLeftTakes(s[1..]);
      before := [s[0]] + more;
    }
  }

  lemma {:induction false} TrimRightTakes(s: string) returns (after: string)
    ensures s == TrimRight(s) + after && Blank(after)
    ensures TrimRight(s) == "" || !IsSpace(TrimRight(s)[|TrimRight(s)| - 1])
  {
    after := "";
    if s != "" && IsSpace(s[|s| - 1]) {
      var more := TrimRightTakes(s[..|s| - 1]);
      after := more + [s[|s| - 1]];
    }
  }

  /** Every string is what `TrimExactly` speaks of. */
  lemma TrimTakes(s: string) returns (before: string, after: string)
    ensures s == before + Trim(s) + after && Blank(before) && Blank(after) && Trimmed(Trim(s))
  {
    before := TrimLeftTakes(s);
    after := TrimRightTakes(TrimLeft(s));
  }

  /** At most `n` parts, the last of them unsplit. */
  function SplitN(s: string, sep: char, n: nat): (parts: seq<string>)
    requires n > 0
    ensures parts != []
  {
    if n == 1 then [s]
    else if s == "" then [""]
    else if s[0] == sep then [""] + SplitN(s[1..], sep, n - 1)
    else
      var rest := SplitN(s[1..], sep, n);
      [[s[0]] + rest[0]] + rest[1..]
  }

  /** Limiting the number of parts changes nothing about the ones before the last. */
  lemma {:induction false} SplitNPrefix(s: string, sep: char, n: nat)
    requires n > 0
    ensures var limited, all := SplitN(s, sep, n), Split(s, sep);
            && |limited| == (if |all| < n then |all| else n)
            && forall i :: 0 <= i < |limited| && i < n - 1 ==> limited[i] == all[i]
  {
    if n > 1 && s != "" {
      SplitNPrefix(s[1..], sep, if s[0] == sep then n - 1 else n);
    }
  }

  lemma {:induction false} CutAtFirst(name: string, value: string, sep: char, n: nat)
    requires n == 2 && sep !in name
    ensures SplitN(name + [sep] + value, sep, n) == [name, value]
  {
    var s := name + [sep] + value;
    if name != "" {
      CutAtFirst(name[1..], value, sep, n);
      assert s[1..] == name[1..] + [sep] + value && s[0] == name[0] && name[0] in name;
      assert [name[0]] + name[1..] == name;
    } else {
      assert s[1..] == value;
      assert SplitN(s[1..], sep, n - 1) == [value];
    }
  }

  // ---- One range ----

  predicate IsDigit(c: char) { '0' <= c <= '9' }

  predicate Digits(s: string) { forall c :: c in s ==> IsDigit(c) }

  function Digit(c: char): real
    requires IsDigit(c)
  {
    (c as int - '0' as int) as real
  }

  lemma DigitIs(c: char)
    requires IsDigit(c)
    ensures Digit(c) == match c
                        case '0' => 0.0 case '1' => 1.0 case '2' => 2.0 case '3' => 3.0 case '4' => 4.0
                        case '5' => 5.0 case '6' => 6.0 case '7' => 7.0 case '8' => 8.0 case _ => 9.0
  {
  }

  /** The digits before the point, front to back. */
  function Whole(s: string): real
    requires Digits(s)
  {
    if s == "" then 0.0 else 10.0 * Whole(s[..|s| - 1]) + Digit(s[|s| - 1])
  }

  /** The digits after the point. */
  function Fraction(s: string): real
    requires Digits(s)
  {
    if s == "" then 0.0 else (Digit(s[0]) + Fraction(s[1..])) / 10.0
  }

  function Pow10(n: nat): real { if n == 0 then 1.0 else 10.0 * Pow10(n - 1) }

  lemma {:induction false} WholeFront(c: char, s: string)
    requires IsDigit(c) && Digits(s)
    ensures Digits([c] + s) && Whole([c] + s) == Digit(c) * Pow10(|s|) + Whole(s)
  {
    if s == "" {
      assert [c] + s == [c] && [c][..|[c]| - 1] == "";
    } else {
      var init, last := s[..|s| - 1], s[|s| - 1];
      assert last in s && forall x :: x in init ==> x in s;
      WholeFront(c, init);
      assert ([c] + s)[..|[c] + s| - 1] == [c] + init && ([c] + s)[|[c] + s| - 1] == last;
      TenTimes(Digit(c), Pow10(|init|), Whole(init));
    }
  }

  lemma TenTimes(a: real, b: real, c: real)
    ensures 10.0 * (a * b + c) == a * (10.0 * b) + 10.0 * c
  {
  }

  /** The digits behind the point, read as a whole number, over as many powers of ten. */
  lemma {:induction false} FractionIsWhole(s: string)
    requires Digits(s)
    ensures Fraction(s) * Pow10(|s|) == Whole(s)
  {
    if s != "" {
      hide Fraction, Pow10, Whole, Digit, Digits, IsDigit;
      var rest := s[1..];
      DigitsOfRest(s);
      FractionUnfolds(s);
      NextPower(|rest|);
      WholeFront(s[0], rest);
      FractionIsWhole(rest);
      assert s == [s[0]] + rest;
      TenthTimes(Digit(s[0]), Fraction(rest), Pow10(|rest|));
    }
  }

  lemma DigitsOfRest(s: string)
    requires Digits(s) && s != ""
    ensures IsDigit(s[0]) && Digits(s[1..])
  {
    assert forall x :: x in s[1..] ==> x in s;
  }

  lemma FractionUnfolds(s: string)
    requires Digits(s) && s != "" && IsDigit(s[0]) && Digits(s[1..])
    ensures Fraction(s) == (Digit(s[0]) + Fraction(s[1..])) / 10.0
  {
    hide Digit;
  }

  lemma NextPower(n: nat)
    ensures Pow10(n + 1) == 10.0 * Pow10(n)
  {
  }

  lemma TenthTimes(d: real, f: real, p: real)
    ensures (d + f) / 10.0 * (10.0 * p) == d * p + f * p
  {
  }

  /** A decimal of digits with at most one point and at least one digit. */
  function Decimal(s: string): Option<real>
  {
    var parts := Split(s, '.');
    if |parts| <= 2 && (forall p :: p in parts ==> Digits(p)) && (exists p :: p in parts && p != "")
    then Some(Whole(parts[0]) + if |parts| == 2 then Fraction(parts[1]) else 0.0)
    else None
  }

  lemma NoPoint(s: string)
    requires Digits(s)
    ensures '.' !in s
  {
  }

  /** Digits, or digits around one point with some on either side, are that number. */
  lemma DecimalIs(a: string, b: string)
    requires Digits(a) && Digits(b)
    ensures Decimal(a) == if a == "" then None else Some(Whole(a))
    ensures Decimal(a + ['.'] + b) == if a == "" && b == "" then None else Some(Whole(a) + Fraction(b))
  {
    hide Digits, Whole, Fraction, Split;
    NoPoint(a);
    NoPoint(b);
    OneAndTwoParts(a, b);
    assert forall p :: p in [a] <==> p == a;
    assert forall p :: p in [a, b] <==> p == a || p == b;
    assert a in [a] && a in [a, b] && b in [a, b];
  }

  lemma OneAndTwoParts(a: string, b: string)
    requires '.' !in a && '.' !in b
    ensures Split(a, '.') == [a] && Split(a + ['.'] + b, '.') == [a, b]
  {
    hide Split;
    assert [a, b][1..] == [b];
    assert Join([a], '.') == a && Join([b], '.') == b && Join([a, b], '.') == a + ['.'] + b;
    JoinSplits([a], '.');
    JoinSplits([a, b], '.');
  }

  lemma {:induction false} SplitConcat(a: string, b: string, sep: char)
    ensures Split(a + [sep] + b, sep) == Split(a, sep) + Split(b, sep)
  {
    var s := a + [sep] + b;
    if a != "" {
      SplitConcat(a[1..], b, sep);
      assert s[1..] == a[1..] + [sep] + b && s[0] == a[0];
      SplitUnfolds(s, sep);
      SplitUnfolds(a, sep);
    } else {
      assert s[1..] == b && s[0] == sep;
      SplitUnfolds(s, sep);
      EmptySplits(sep);
    }
    hide Split;
  }

  lemma SplitUnfolds(s: string, sep: char)
    requires s != ""
    ensures var rest := Split(s[1..], sep);
            Split(s, sep) == if s[0] == sep then [""] + rest else [[s[0]] + rest[0]] + rest[1..]
  {
  }

  lemma EmptySplits(sep: char)
    ensures Split("", sep) == [""]
  {
  }

  /** Nothing with a second point is a number. */
  lemma TwoPoints(a: string, b: string, c: string)
    ensures Decimal(a + ['.'] + (b + ['.'] + c)) == None
  {
    SplitConcat(a, b + ['.'] + c, '.');
    SplitConcat(b, c, '.');
    hide Split;
    assert |Split(a + ['.'] + (b + ['.'] + c), '.')| >= 3;
  }

  /** Neither is anything with a character that is neither digit nor point. */
  lemma NoDecimal(s: string, c: char)
    requires c in s && !('0' <= c <= '9') && c != '.'
    ensures Decimal(s) == None
  {
    SplitJoins(s, '.');
    InSomePart(Split(s, '.'), '.', c);
  }

  lemma {:induction false} InSomePart(parts: seq<string>, sep: char, c: char)
    requires parts != [] && c in Join(parts, sep) && c != sep
    ensures exists p :: p in parts && c in p
  {
    if |parts| > 1 && c !in parts[0] {
      InSomePart(parts[1..], sep, c);
      var p :| p in parts[1..] && c in p;
      assert p in parts;
    } else {
      assert parts[0] in parts;
    }
  }

  function Quality(value: string): Option<real>
  {
    match Decimal(value)
    case None => None
    case Some(q) => if 0.0 <= q <= 1.0 then Some(q) else None
  }

  /** The value of a `q` parameter, if the field is one. */
  function QualityField(field: string): Option<string>
  {
    var parts := SplitN(Trim(field), '=', 2);
    if |parts| == 2 && Lower(Trim(parts[0])) == "q" then Some(Trim(parts[1])) else None
  }

  /** The quality after reading the first `n` parameters: the last `q` wins, an unreadable one spoils all. */
  function QualityOf(fields: seq<string>): Option<real>
  {
    if fields == [] then Some(1.0)
    else
      var before := QualityOf(fields[..|fields| - 1]);
      var value := QualityField(fields[|fields| - 1]);
      if before.None? then None else if value.None? then before else Quality(value.value)
  }

  function Parsed(part: string): Option<Range>
  {
    var fields := Split(part, ';');
    var tag := Lower(Trim(fields[0]));
    var q := QualityOf(fields[1..]);
    if tag == "" || q.None? then None else Some(Range(tag, q.value))
  }

  method ParseLanguageRange(part: string) returns (r: Option<Range>)
    ensures r == Parsed(part)
    ensures r.Some? ==> 0.0 <= r.value.q <= 1.0
  {
    hide Quality, QualityField, Split, Lower, Trim;
    var fields := Split(part, ';');
    var tag := Lower(Trim(fields[0]));
    if tag == "" {
      return None;
    }
    var params := fields[1..];
    var q := 1.0;
    for i := 0 to |params|
      invariant QualityOf(params[..i]) == Some(q) && 0.0 <= q <= 1.0
    {
      assert params[..i + 1][..i] == params[..i];
      var value := QualityField(params[i]);
      if value.None? {
        continue;
      }
      var parsed := Quality(value.value);
      if parsed.None? {
        Spoiled(params, i + 1);
        return None;
      }
      QualityInRange(value.value);
      q := parsed.value;
    }
    assert params[..|params|] == params;
    return Some(Range(tag, q));
  }

  /** A range written as `tag;q=value` is read as that tag with that quality, or not at all. */
  lemma WrittenRange(tag: string, value: string)
    requires tag != "" && Trim(tag) == tag == Lower(tag) && Trim(value) == value && ';' !in tag && ';' !in value
    ensures Parsed(tag + ";q=" + value) == if Quality(value).None? then None else Some(Range(tag, Quality(value).value))
  {
    var field := "q=" + value;
    var fields := [tag, field];
    assert fields[1..] == [field];
    assert Join(fields, ';') == tag + [';'] + field;
    assert tag + [';'] + field == tag + ";q=" + value;
    JoinSplits(fields, ';');
    QualityFieldOf(value);
    OneField(field, value);
  }

  lemma OneField(field: string, value: string)
    requires QualityField(field) == Some(value)
    ensures QualityOf([field]) == Quality(value)
  {
    hide QualityField, Quality;
    assert QualityOf([]) == Some(1.0);
    assert [field][..|[field]| - 1] == [];
  }

  /** The quality of a range after one more parameter: the last `q` counts, and none that is unreadable. */
  function Requalified(q: Option<real>, field: string): Option<real>
  {
    match QualityField(field)
    case None => q
    case Some(value) => if q.None? then None else Quality(value)
  }

  lemma QualityOfOneMore(fields: seq<string>, field: string)
    ensures QualityOf(fields + [field]) == Requalified(QualityOf(fields), field)
  {
    hide Quality, QualityField;
    var more := fields + [field];
    assert more[..|more| - 1] == fields && more[|more| - 1] == field;
  }

  lemma {:induction false} JoinOneMore(parts: seq<string>, last: string, sep: char)
    requires parts != []
    ensures Join(parts + [last], sep) == Join(parts, sep) + [sep] + last
  {
    if |parts| > 1 {
      assert (parts + [last])[1..] == parts[1..] + [last];
      JoinOneMore(parts[1..], last, sep);
    } else {
      assert (parts + [last])[1..] == [last];
    }
  }

  lemma SplitOneMore(s: string, last: string, sep: char)
    requires sep !in last
    ensures Split(s + [sep] + last, sep) == Split(s, sep) + [last]
  {
    SplitJoins(s, sep);
    JoinOneMore(Split(s, sep), last, sep);
    JoinSplits(Split(s, sep) + [last], sep);
  }

  /** A further parameter changes a range only by a readable or unreadable quality, never its tag. */
  lemma ParsedOneMore(part: string, field: string)
    requires ';' !in field && Parsed(part).Some?
    ensures Parsed(part + [';'] + field) ==
            match QualityField(field)
            case None => Parsed(part)
            case Some(value) =>
              if Quality(value).None? then None else Some(Parsed(part).value.(q := Quality(value).value))
  {
    hide Quality, QualityField, Trim, Lower;
    SplitOneMore(part, field, ';');
    var fields := Split(part, ';');
    assert (fields + [field])[0] == fields[0] && (fields + [field])[1..] == fields[1..] + [field];
    QualityOfOneMore(fields[1..], field);
    hide Split;
  }

  lemma QualityFieldOf(value: string)
    requires Trim(value) == value
    ensures QualityField("q=" + value) == Some(value)
  {
    var field := "q=" + value;
    var before, after := TrimTakes(value);
    assert |value| == |before| + |value| + |after|;
    TrimExactly("", field, "");
    assert "" + field + "" == field;
    assert field == "q" + ['='] + value;
    CutAtFirst("q", value, '=', 2);
    assert |Lower("q")| == 1 && Lower("q")[0] == 'q';
    assert Trim("q") == "q" && Lower("q") == "q";
  }

  lemma QualityInRange(value: string)
    ensures Quality(value).Some? ==> 0.0 <= Quality(value).value <= 1.0
  {
  }

  lemma {:induction false} Spoiled(fields: seq<string>, i: nat)
    requires i <= |fields| && QualityOf(fields[..i]).None?
    ensures QualityOf(fields).None?
    decreases |fields| - i
  {
    if i < |fields| {
      assert fields[..i + 1][..i] == fields[..i];
      Spoiled(fields, i + 1);
    } else {
      assert fields[..i] == fields;
    }
  }

  /** The language part of a tag. */
  function Primary(tag: string): string
  {
    if tag == "" || tag[0] == '-' || tag[0] == '_' then "" else [tag[0]] + Primary(tag[1..])
  }

  predicate Separator(c: char) { c == '-' || c == '_' }

  /** What comes before the first separator. */
  lemma {:induction false} PrimaryIs(tag: string, primary: string)
    ensures primary == Primary(tag) <==>
            primary <= tag && (forall c :: c in primary ==> !Separator(c)) &&
            (|primary| == |tag| || Separator(tag[|primary|]))
  {
    if tag == "" || Separator(tag[0]) {
      assert primary <= tag && primary != "" ==> primary[0] == tag[0];
    } else if primary != "" && primary[0] == tag[0] {
      PrimaryIs(tag[1..], primary[1..]);
      assert primary == [primary[0]] + primary[1..] && tag == [tag[0]] + tag[1..];
    }
  }

  // ---- What the header asks for ----

  /** The first ranges of a header, in order; unreadable ones keep their place. */
  function Ranges(header: string): seq<Option<Range>>
  {
    var parts := Split(header, ',');
    var n := if |parts| < MAX_RANGES then |parts| else MAX_RANGES;
    seq(n, i requires 0 <= i < n => Parsed(parts[i]))
  }

  predicate Names(r: Option<Range>, lang: string)
  {
    r.Some? && Primary(r.value.tag) == lang
  }

  /** An offer for a language: the greatest quality given for it, and the first place that gives it. */
  datatype Offer = Offer(q: real, at: nat)

  ghost predicate IsOffer(rs: seq<Option<Range>>, lang: string, offer: Option<Offer>)
  {
    match offer
    case None => forall i :: 0 <= i < |rs| ==> !Names(rs[i], lang)
    case Some(o) =>
      && o.at < |rs| && Names(rs[o.at], lang) && rs[o.at].value.q == o.q
      && (forall i :: 0 <= i < |rs| && Names(rs[i], lang) ==> rs[i].value.q <= o.q)
      && (forall i :: 0 <= i < o.at && Names(rs[i], lang) ==> rs[i].value.q < o.q)
  }

  /** A language that is not named gets what `*` offers. */
  ghost predicate Offered(rs: seq<Option<Range>>, lang: string, offer: Option<Offer>)
  {
    if exists i :: 0 <= i < |rs| && Names(rs[i], lang) then IsOffer(rs, lang, offer) else IsOffer(rs, "*", offer)
  }

  /** Acceptable with quality at least `other`'s, ties going to the earlier place. */
  predicate Preferred(offer: Option<Offer>, other: Option<Offer>)
  {
    && offer.Some? && offer.value.q > 0.0
    && (other.None? || offer.value.q > other.value.q ||
        (offer.value.q == other.value.q && offer.value.at <= other.value.at))
  }

  /**
   * The choice: an acceptable language that no other beats, English in a full tie, and English
   * when neither is acceptable.
   */
  ghost predicate IsChoice(rs: seq<Option<Range>>, lang: Lang)
  {
    forall en, ja :: Offered(rs, "en", en) && Offered(rs, "ja", ja) ==>
      (lang == Japanese <==> Preferred(ja, en) && !Preferred(en, ja))
  }

  method Take(before: Option<Offer>, q: real, at: nat) returns (offer: Option<Offer>)
    ensures offer == if before.None? || q > before.value.q then Some(Offer(q, at)) else before
  {
    if before.None? || q > before.value.q {
      return Some(Offer(q, at));
    }
    return before;
  }

  /** One turn of the pass for one language. */
  lemma OfferStep(rs: seq<Option<Range>>, lang: string, i: nat, before: Option<Offer>, after: Option<Offer>)
    requires i < |rs| && IsOffer(rs[..i], lang, before)
    requires after == if Names(rs[i], lang) && (before.None? || rs[i].value.q > before.value.q)
                      then Some(Offer(rs[i].value.q, i)) else before
    ensures IsOffer(rs[..i + 1], lang, after)
  {
  }

  method LangOf(header: string) returns (best: Lang)
    ensures IsChoice(Ranges(header), best)
  {
    hide Parsed, Primary, Split, SplitN;
    var en: Option<Offer>, ja: Option<Offer>, star: Option<Offer> := None, None, None;
    var parts := SplitN(header, ',', MAX_RANGES + 1);
    SplitNPrefix(header, ',', MAX_RANGES + 1);
    ghost var rs := Ranges(header);
    var i := 0;
    while i < |parts| && i < MAX_RANGES
      invariant 0 <= i <= |parts| && i <= MAX_RANGES
      invariant i <= |rs| && (i == |parts| || i == MAX_RANGES ==> i == |rs|)
      invariant IsOffer(rs[..i], "en", en) && IsOffer(rs[..i], "ja", ja) && IsOffer(rs[..i], "*", star)
      decreases |parts| - i
    {
      ghost var en0, ja0, star0 := en, ja, star;
      var range := ParseLanguageRange(parts[i]);
      assert range == rs[i];
      if range.Some? {
        var lang := Primary(range.value.tag);
        if lang == "ja" {
          ja := Take(ja, range.value.q, i);
        } else if lang == "en" {
          en := Take(en, range.value.q, i);
        } else if lang == "*" {
          star := Take(star, range.value.q, i);
        }
      }
      OfferStep(rs, "en", i, en0, en);
      OfferStep(rs, "ja", i, ja0, ja);
      OfferStep(rs, "*", i, star0, star);
      i := i + 1;
    }
    assert rs[..i] == rs;
    best := Choose(rs, en, ja, star);
  }

  /** The candidate is acceptable and better than the best so far. */
  predicate Beats(candidate: Option<Offer>, bestQ: real, bestAt: nat)
  {
    && candidate.Some? && candidate.value.q > 0.0
    && (candidate.value.q > bestQ || (candidate.value.q == bestQ && candidate.value.at < bestAt))
  }

  /** The comparison of the two candidates, English first. */
  method Choose(ghost rs: seq<Option<Range>>, en: Option<Offer>, ja: Option<Offer>, star: Option<Offer>)
    returns (best: Lang)
    requires IsOffer(rs, "en", en) && IsOffer(rs, "ja", ja) && IsOffer(rs, "*", star)
    ensures IsChoice(rs, best)
  {
    var bestQ, bestAt := 0.0, 0;
    best := English;
    var first := if en.Some? then en else star;
    var second := if ja.Some? then ja else star;
    if Beats(first, bestQ, bestAt) {
      bestQ, bestAt := first.value.q, first.value.at;
    }
    if Beats(second, bestQ, bestAt) {
      best := Japanese;
    }
    forall e, j | Offered(rs, "en", e) && Offered(rs, "ja", j)
      ensures e == first && j == second
    {
      OfferOrStar(rs, "en", en, star, e);
      OfferOrStar(rs, "ja", ja, star, j);
    }
  }

  lemma OfferOrStar(rs: seq<Option<Range>>, lang: string, own: Option<Offer>, star: Option<Offer>,
                    offered: Option<Offer>)
    requires IsOffer(rs, lang, own) && IsOffer(rs, "*", star) && Offered(rs, lang, offered)
    ensures offered == if own.Some? then own else star
  {
  }

  // ---- What the choice promises ----

  ghost function OfferOf(rs: seq<Option<Range>>, lang: string): (offer: Option<Offer>)
    ensures IsOffer(rs, lang, offer)
  {
    if rs == [] then None
    else
      var i := |rs| - 1;
      var before := OfferOf(rs[..i], lang);
      var offer := if Names(rs[i], lang) && (before.None? || rs[i].value.q > before.value.q)
                   then Some(Offer(rs[i].value.q, i)) else before;
      OfferStep(rs, lang, i, before, offer);
      assert rs[..i + 1] == rs;
      offer
  }

  ghost function OfferTo(rs: seq<Option<Range>>, lang: string): Option<Offer>
  {
    if OfferOf(rs, lang).Some? then OfferOf(rs, lang) else OfferOf(rs, "*")
  }

  /** Every list of ranges makes one offer to each language. */
  lemma OffersExist(rs: seq<Option<Range>>, lang: string, offer: Option<Offer>)
    ensures Offered(rs, lang, offer) <==> offer == OfferTo(rs, lang)
  {
    var own, star := OfferOf(rs, lang), OfferOf(rs, "*");
    if Offered(rs, lang, offer) {
      OfferOrStar(rs, lang, own, star, offer);
    }
    assert own.Some? <==> exists i :: 0 <= i < |rs| && Names(rs[i], lang);
  }

  /** The choice in terms of these offers. */
  lemma ChoiceOf(rs: seq<Option<Range>>, lang: Lang)
    ensures IsChoice(rs, lang) <==>
            (lang == Japanese <==>
             Preferred(OfferTo(rs, "ja"), OfferTo(rs, "en")) && !Preferred(OfferTo(rs, "en"), OfferTo(rs, "ja")))
  {
    forall lang, offer
      ensures Offered(rs, lang, offer) <==> offer == OfferTo(rs, lang)
    {
      OffersExist(rs, lang, offer);
    }
    hide Offered, OfferTo, Preferred;
    var en, ja := OfferTo(rs, "en"), OfferTo(rs, "ja");
    assert Offered(rs, "en", en) && Offered(rs, "ja", ja);
  }

  /** Every list of ranges makes exactly one choice. */
  lemma ChoiceUnique(rs: seq<Option<Range>>)
    ensures exists lang :: IsChoice(rs, lang) && forall other :: IsChoice(rs, other) ==> other == lang
  {
    ChoiceOf(rs, English);
    ChoiceOf(rs, Japanese);
    hide IsChoice, Preferred, OfferTo;
    assert IsChoice(rs, English) <==> !IsChoice(rs, Japanese);
    var lang := if IsChoice(rs, English) then English else Japanese;
    assert IsChoice(rs, lang);
  }

  /** At most the first 16 ranges are read, each by itself. */
  lemma RangesAre(header: string)
    ensures var parts := Split(header, ',');
            && |Ranges(header)| == (if |parts| < 16 then |parts| else 16)
            && forall i :: 0 <= i < |Ranges(header)| ==> Ranges(header)[i] == Parsed(parts[i])
  {
    hide Parsed, Split;
  }

  lemma PlainTags()
    ensures Primary("en") == "en" && Primary("ja") == "ja" && Primary("*") == "*" && Primary("fr") == "fr"
    ensures Primary("ja-jp") == "ja" && Primary("en_us") == "en"
  {
    PrimaryIs("en", "en");
    PrimaryIs("ja", "ja");
    PrimaryIs("*", "*");
    PrimaryIs("fr", "fr");
    assert "ja-jp"[..2] == "ja" && "en_us"[..2] == "en";
    PrimaryIs("ja-jp", "ja");
    PrimaryIs("en_us", "en");
  }

  /** The choice once the offers are known. */
  lemma ChoiceBy(rs: seq<Option<Range>>, lang: Lang, en: Option<Offer>, ja: Option<Offer>)
    requires Offered(rs, "en", en) && Offered(rs, "ja", ja)
    ensures IsChoice(rs, lang) <==> (lang == Japanese <==> Preferred(ja, en) && !Preferred(en, ja))
  {
    OffersExist(rs, "en", en);
    OffersExist(rs, "ja", ja);
    hide Offered, Preferred, IsChoice;
    ChoiceOf(rs, lang);
  }

  function One(tag: string, q: real): seq<Option<Range>> { [Some(Range(tag, q))] }

  /** Two named languages: the greater quality wins, the earlier on a tie, and zero never. */
  lemma TwoLanguages(p: real, q: real)
    requires 0.0 <= p <= 1.0 && 0.0 <= q <= 1.0
    ensures IsChoice(One("en", p) + One("ja", q), if q > p then Japanese else English)
    ensures IsChoice(One("ja", p) + One("en", q), if p >= q && p > 0.0 then Japanese else English)
  {
    PlainTags();
    var a, b := One("en", p) + One("ja", q), One("ja", p) + One("en", q);
    assert Names(a[0], "en") && Names(a[1], "ja") && Names(b[0], "ja") && Names(b[1], "en");
    hide Primary;
    ChoiceBy(a, if q > p then Japanese else English, Some(Offer(p, 0)), Some(Offer(q, 1)));
    ChoiceBy(b, if p >= q && p > 0.0 then Japanese else English, Some(Offer(q, 1)), Some(Offer(p, 0)));
  }

  /** One named language and a wildcard: the wildcard stands for the other one. */
  lemma Wildcard(p: real, q: real)
    requires 0.0 <= p <= 1.0 && 0.0 <= q <= 1.0
    ensures IsChoice(One("en", p) + One("*", q), if q > p then Japanese else English)
  {
    PlainTags();
    var a := One("en", p) + One("*", q);
    assert Names(a[0], "en") && Names(a[1], "*");
    hide Primary;
    ChoiceBy(a, if q > p then Japanese else English, Some(Offer(p, 0)), Some(Offer(q, 1)));
  }

  /** Japanese needs to be asked for; anything else, and nothing at all, means English. */
  lemma OneRange(q: real)
    requires 0.0 <= q <= 1.0
    ensures IsChoice(One("*", q), English) && IsChoice([], English) && IsChoice(One("fr", q), English)
    ensures IsChoice(One("ja-jp", q), if q > 0.0 then Japanese else English)
  {
    PlainTags();
    hide Primary;
    assert Names(One("*", q)[0], "*") && Names(One("ja-jp", q)[0], "ja");
    ChoiceBy(One("*", q), English, Some(Offer(q, 0)), Some(Offer(q, 0)));
    ChoiceBy([], English, None, None);
    ChoiceBy(One("fr", q), English, None, None);
    ChoiceBy(One("ja-jp", q), if q > 0.0 then Japanese else English, None, Some(Offer(q, 0)));
  }

  predicate Acceptable(offer: Option<Offer>)
  {
    offer.Some? && offer.value.q > 0.0
  }

  /**
   * A language with quality zero is never chosen over an acceptable one, Japanese never without being
   * acceptable, and the chosen language's quality is the greater one.
   */
  lemma ZeroIsNeverChosen(rs: seq<Option<Range>>, lang: Lang)
    requires IsChoice(rs, lang)
    ensures var en, ja := OfferTo(rs, "en"), OfferTo(rs, "ja");
            && (lang == Japanese ==> Acceptable(ja) && (Acceptable(en) ==> ja.value.q >= en.value.q))
            && (lang == English && Acceptable(ja) ==> Acceptable(en) && en.value.q >= ja.value.q)
            && (Acceptable(en) && Acceptable(ja) && en.value.q == ja.value.q ==>
                  (lang == English <==> en.value.at <= ja.value.at))
  {
    ChoiceOf(rs, lang);
    hide IsChoice, OfferTo;
  }
}
