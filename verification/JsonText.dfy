/** A consistency witness, not a model of JSON syntax: the condition that values survive a codec can be met for all values
    at once, by some text form from which they can be read back. Each text is given together with what follows it, so that
    reading has to find out where a value ends. */
module JsonText {
  import opened Basics
  import opened Json

  function NatText(n: nat, rest: string): string {
    if n == 0 then ['.'] + rest else ['+'] + NatText(n - 1, rest)
  }

  function IntText(i: int, rest: string): string {
    if i < 0 then ['-'] + NatText(-i, rest) else ['+'] + NatText(i, rest)
  }

  function StringText(s: string, rest: string): string {
    if s == "" then ['.'] + rest else ['+'] + ([s[0]] + StringText(s[1..], rest))
  }

  ghost function ValueText(v: Json, rest: string): string
    decreases v
  {
    match v
    case Null => ['n'] + rest
    case Bool(b) => if b then ['t'] + rest else ['f'] + rest
    case Num(Int(i)) => ['i'] + IntText(i, rest)
    case Num(Float(m, e)) => ['d'] + IntText(m, IntText(e, rest))
    case Str(s) => ['s'] + StringText(s, rest)
    case Arr(items) => ['a'] + ItemsText(items, rest)
    case Obj(fields) => ['o'] + FieldsText(v, fields, rest)
  }

  ghost function ItemsText(items: seq<Json>, rest: string): string
    decreases items
  {
    if items == [] then ['.'] + rest else ['+'] + ValueText(items[0], ItemsText(items[1..], rest))
  }

  ghost predicate PartOf(fields: map<string, Json>, v: Json) {
    v.Obj? && forall k :: k in fields ==> k in v.fields && fields[k] == v.fields[k]
  }

  /** The text of some of the fields of `v`, in some order. */
  ghost function FieldsText(v: Json, fields: map<string, Json>, rest: string): string
    requires PartOf(fields, v)
    decreases v, |fields|
  {
    if fields == map[] then ['.'] + rest
    else
      var k :| k in fields;
      ['+'] + StringText(k, ValueText(fields[k], FieldsText(v, fields - {k}, rest)))
  }

  lemma SameHead(a: char, s: string, b: char, t: string)
    requires [a] + s == [b] + t
    ensures a == b && s == t
  {
    assert ([a] + s)[0] == a && ([a] + s)[1..] == s;
    assert ([b] + t)[0] == b && ([b] + t)[1..] == t;
  }

  lemma {:induction false} NatIsRead(m: nat, n: nat, s: string, t: string)
    requires NatText(m, s) == NatText(n, t)
    ensures m == n && s == t
  {
    SameHead(if m == 0 then '.' else '+', if m == 0 then s else NatText(m - 1, s),
             if n == 0 then '.' else '+', if n == 0 then t else NatText(n - 1, t));
    if m > 0 {
      NatIsRead(m - 1, n - 1, s, t);
    }
  }

  lemma IntIsRead(i: int, j: int, s: string, t: string)
    requires IntText(i, s) == IntText(j, t)
    ensures i == j && s == t
  {
    SameHead(if i < 0 then '-' else '+', NatText(if i < 0 then -i else i, s),
             if j < 0 then '-' else '+', NatText(if j < 0 then -j else j, t));
    NatIsRead(if i < 0 then -i else i, if j < 0 then -j else j, s, t);
  }

  lemma {:induction false} StringIsRead(a: string, b: string, s: string, t: string)
    requires StringText(a, s) == StringText(b, t)
    ensures a == b && s == t
  {
    SameHead(if a == "" then '.' else '+', if a == "" then s else [a[0]] + StringText(a[1..], s),
             if b == "" then '.' else '+', if b == "" then t else [b[0]] + StringText(b[1..], t));
    if a != "" {
      SameHead(a[0], StringText(a[1..], s), b[0], StringText(b[1..], t));
      StringIsRead(a[1..], b[1..], s, t);
      assert a == [a[0]] + a[1..] && b == [b[0]] + b[1..];
    }
  }

  /** The letter a value's text begins with. */
  function Tag(v: Json): char {
    match v
    case Null => 'n'
    case Bool(b) => if b then 't' else 'f'
    case Num(Int(_)) => 'i'
    case Num(Float(_, _)) => 'd'
    case Str(_) => 's'
    case Arr(_) => 'a'
    case Obj(_) => 'o'
  }

  /** What comes behind the letter. */
  ghost function Body(v: Json, rest: string): string {
    match v
    case Null => rest
    case Bool(_) => rest
    case Num(Int(i)) => IntText(i, rest)
    case Num(Float(m, e)) => IntText(m, IntText(e, rest))
    case Str(s) => StringText(s, rest)
    case Arr(items) => ItemsText(items, rest)
    case Obj(fields) => FieldsText(v, fields, rest)
  }

  /** A value and what follows it can be told from the text. */
  lemma {:induction false} ValueIsRead(v: Json, w: Json, s: string, t: string)
    requires ValueText(v, s) == ValueText(w, t)
    ensures v == w && s == t
    decreases v
  {
    assert ValueText(v, s) == [Tag(v)] + Body(v, s) && ValueText(w, t) == [Tag(w)] + Body(w, t);
    SameHead(Tag(v), Body(v, s), Tag(w), Body(w, t));
    match v
    case Num(Int(i)) => IntIsRead(i, w.n.i, s, t);
    case Num(Float(m, e)) =>
      IntIsRead(m, w.n.mantissa, IntText(e, s), IntText(w.n.exponent, t));
      IntIsRead(e, w.n.exponent, s, t);
    case Str(a) => StringIsRead(a, w.s, s, t);
    case Arr(items) => ItemsAreRead(items, w.items, s, t);
    case Obj(fields) => FieldsAreRead(v, fields, w, w.fields, s, t);
    case _ =>
  }

  lemma {:induction false} ItemsAreRead(a: seq<Json>, b: seq<Json>, s: string, t: string)
    requires ItemsText(a, s) == ItemsText(b, t)
    ensures a == b && s == t
    decreases a
  {
    SameHead(if a == [] then '.' else '+', if a == [] then s else ValueText(a[0], ItemsText(a[1..], s)),
             if b == [] then '.' else '+', if b == [] then t else ValueText(b[0], ItemsText(b[1..], t)));
    if a != [] {
      ValueIsRead(a[0], b[0], ItemsText(a[1..], s), ItemsText(b[1..], t));
      ItemsAreRead(a[1..], b[1..], s, t);
      assert a == [a[0]] + a[1..] && b == [b[0]] + b[1..];
    }
  }

  lemma {:induction false} FieldsAreRead(v: Json, f: map<string, Json>, w: Json, g: map<string, Json>, s: string, t: string)
    requires PartOf(f, v) && PartOf(g, w)
    requires FieldsText(v, f, s) == FieldsText(w, g, t)
    ensures f == g && s == t
    decreases v, |f|
  {
    var a := FieldsTail(v, f, s);
    var b := FieldsTail(w, g, t);
    SameHead(if f == map[] then '.' else '+', a, if g == map[] then '.' else '+', b);
    if f != map[] {
      var k, moreF := FirstField(v, f, s);
      var l, moreG := FirstField(w, g, t);
      SameHead('+', StringText(k, ValueText(f[k], moreF)), '+', StringText(l, ValueText(g[l], moreG)));
      StringIsRead(k, l, ValueText(f[k], moreF), ValueText(g[l], moreG));
      ValueIsRead(f[k], g[l], moreF, moreG);
      FieldsAreRead(v, f - {k}, w, g - {k}, s, t);
      SameWithField(f, g, k);
    }
  }

  lemma FieldsTail(v: Json, fields: map<string, Json>, rest: string) returns (tail: string)
    requires PartOf(fields, v)
    ensures FieldsText(v, fields, rest) == [if fields == map[] then '.' else '+'] + tail
    ensures fields == map[] ==> tail == rest
  {
    tail := FieldsText(v, fields, rest)[1..];
  }

  lemma FirstField(v: Json, fields: map<string, Json>, rest: string) returns (k: string, more: string)
    requires PartOf(fields, v) && fields != map[]
    ensures k in fields && more == FieldsText(v, fields - {k}, rest)
    ensures FieldsText(v, fields, rest) == ['+'] + StringText(k, ValueText(fields[k], more))
  {
    k :| k in fields && FieldsText(v, fields, rest)
         == ['+'] + StringText(k, ValueText(fields[k], FieldsText(v, fields - {k}, rest)));
    more := FieldsText(v, fields - {k}, rest);
  }

  lemma SameWithField(f: map<string, Json>, g: map<string, Json>, k: string)
    requires k in f && k in g && f[k] == g[k] && f - {k} == g - {k}
    ensures f == g
  {
    assert f == (f - {k})[k := f[k]] && g == (g - {k})[k := g[k]];
  }

  ghost function ReadText(text: string): Option<Json> {
    if exists v :: ValueText(v, "") == text then
      var v :| ValueText(v, "") == text;
      Some(v)
    else None
  }

  /** Some codec is faithful. */
  lemma FaithfulCodecExists()
    ensures exists codec :: Faithful(codec)
  {
    var codec := Codec(text => ReadText(text), v => ValueText(v, ""));
    forall v
      ensures Survives(codec, v)
    {
      assert ReadText(ValueText(v, "")).Some?;
      ValueIsRead(v, ReadText(ValueText(v, "")).value, "", "");
    }
    assert Faithful(codec);
  }
}
