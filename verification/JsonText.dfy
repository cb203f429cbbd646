/** The texts of JSON arrays and objects, with any layout and any escapes that sections 2 and 7 of
    RFC 8259 allow, are bracket groups. */
module JsonText {
  import opened JsonRecovery
  import opened JsonGroups

  /** One character of a quoted text: itself, a short escape, or four hexadecimal digits. */
  datatype Letter = Itself(c: char) | Short(c: char) | Code(digits: string)

  /** A value between white space. */
  datatype Spaced = Spaced(left: string, value: Json, right: string)

  datatype Field = Field(left: string, name: seq<Letter>, right: string, value: Spaced)

  /** A JSON text as it is written; an empty array or object may hold white space. */
  datatype Json = Null | Bool(value: bool) | Number(digits: string) | Text(letters: seq<Letter>)
                | Array(gap: string, items: seq<Spaced>) | Object(gap: string, fields: seq<Field>)

  predicate NumberChar(c: char) { '0' <= c <= '9' || c in "+-.eE" }

  predicate HexDigit(c: char) { '0' <= c <= '9' || 'a' <= c <= 'f' || 'A' <= c <= 'F' }

  predicate IsSpace(text: string) { forall c | c in text :: c in " \t\n\r" }

  /** Quotes, backslashes and control characters never stand for themselves. */
  predicate GoodLetter(x: Letter) {
    match x
    case Itself(c) => c != '"' && c != '\\' && 0x20 <= c as int
    case Short(c) => c in "\"\\/bfnrt"
    case Code(digits) => |digits| == 4 && forall c | c in digits :: HexDigit(c)
  }

  predicate GoodText(letters: seq<Letter>) { forall x | x in letters :: GoodLetter(x) }

  predicate WellFormed(v: Json) {
    match v
    case Number(digits) => forall c | c in digits :: NumberChar(c)
    case Text(letters) => GoodText(letters)
    case Array(gap, items) => IsSpace(gap) && forall item | item in items :: GoodItem(item)
    case Object(gap, fields) => IsSpace(gap) && forall f | f in fields :: GoodField(f)
    case _ => true
  }

  predicate GoodItem(item: Spaced) { IsSpace(item.left) && IsSpace(item.right) && WellFormed(item.value) }

  predicate GoodField(f: Field) { IsSpace(f.left) && IsSpace(f.right) && GoodText(f.name) && GoodItem(f.value) }

  function PrintLetter(x: Letter): string {
    match x
    case Itself(c) => [c]
    case Short(c) => ['\\', c]
    case Code(digits) => ['\\', 'u'] + digits
  }

  function PrintLetters(letters: seq<Letter>): string {
    if letters == [] then "" else PrintLetter(letters[0]) + PrintLetters(letters[1..])
  }

  function PrintText(letters: seq<Letter>): string { "\"" + PrintLetters(letters) + "\"" }

  function PrintJson(v: Json): string
    decreases v, 0
  {
    match v
    case Null => "null"
    case Bool(value) => if value then "true" else "false"
    case Number(digits) => digits
    case Text(letters) => PrintText(letters)
    case Array(gap, items) => "[" + (if items == [] then gap else PrintItems(items)) + "]"
    case Object(gap, fields) => "{" + (if fields == [] then gap else PrintFields(fields)) + "}"
  }

  function PrintSpaced(item: Spaced): string
    decreases item, 0
  {
    item.left + PrintJson(item.value) + item.right
  }

  function PrintItems(items: seq<Spaced>): string
    decreases items, 1
  {
    if items == [] then ""
    else PrintSpaced(items[0]) + (if |items| == 1 then "" else ",") + PrintItems(items[1..])
  }

  function PrintField(f: Field): string
    decreases f, 0
  {
    f.left + PrintText(f.name) + f.right + ":" + PrintSpaced(f.value)
  }

  function PrintFields(fields: seq<Field>): string
    decreases fields, 1
  {
    if fields == [] then ""
    else PrintField(fields[0]) + (if |fields| == 1 then "" else ",") + PrintFields(fields[1..])
  }

  // ----- the same texts as pieces

  /** The text is what some proper pieces print as. */
  ghost predicate IsPieces(text: string) {
    exists ps: seq<Piece> :: ProperAll(ps) && PrintAll(ps) == text
  }

  lemma {:induction false} PrintAllConcat(a: seq<Piece>, b: seq<Piece>)
    ensures PrintAll(a + b) == PrintAll(a) + PrintAll(b)
    ensures ProperAll(a) && ProperAll(b) ==> ProperAll(a + b)
  {
    hide Print, Proper;
    if a == [] {
      assert a + b == b;
    } else {
      PrintAllConcat(a[1..], b);
      assert (a + b)[1..] == a[1..] + b;
    }
  }

  lemma {:induction false} PiecesConcat(a: string, b: string)
    requires IsPieces(a) && IsPieces(b)
    ensures IsPieces(a + b)
  {
    hide PrintAll, ProperAll;
    var x: seq<Piece> :| ProperAll(x) && PrintAll(x) == a;
    var y: seq<Piece> :| ProperAll(y) && PrintAll(y) == b;
    PrintAllConcat(x, y);
  }

  lemma {:induction false} OnePiece(p: Piece, text: string)
    requires Proper(p) && text == Print(p)
    ensures IsPieces(text)
  {
    assert [p][1..] == [];
    assert PrintAll([p]) == Print(p) + PrintAll([p][1..]);
    assert ProperAll([p]);
  }

  lemma {:induction false} PlainText(text: string)
    requires forall c | c in text :: c != '"' && !IsOpener(c) && !IsCloser(c)
    ensures IsPieces(text)
  {
    if text == "" {
      assert PrintAll([]) == "" && ProperAll([]);
    } else {
      forall c | c in text[1..] ensures c in text {}
      assert text[0] in text;
      PlainText(text[1..]);
      OnePiece(Plain(text[0]), [text[0]]);
      PiecesConcat([text[0]], text[1..]);
      assert [text[0]] + text[1..] == text;
    }
  }

  function Units(x: Letter): seq<Unit> {
    match x
    case Itself(c) => [Raw(c)]
    case Short(c) => [Escaped(c)]
    case Code(digits) => [Escaped('u')] + Raws(digits)
  }

  function Raws(digits: string): seq<Unit> {
    if digits == "" then [] else [Raw(digits[0])] + Raws(digits[1..])
  }

  lemma {:induction false} UnitsConcat(a: seq<Unit>, b: seq<Unit>)
    ensures PrintUnits(a + b) == PrintUnits(a) + PrintUnits(b)
    ensures ProperUnits(a) && ProperUnits(b) ==> ProperUnits(a + b)
  {
    hide PrintUnit, ProperUnit;
    if a == [] {
      assert a + b == b;
    } else {
      UnitsConcat(a[1..], b);
      assert (a + b)[1..] == a[1..] + b;
    }
  }

  lemma {:induction false} RawsPrint(digits: string)
    requires forall c | c in digits :: HexDigit(c)
    ensures ProperUnits(Raws(digits)) && PrintUnits(Raws(digits)) == digits
  {
    if digits != "" {
      assert forall c | c in digits[1..] :: c in digits;
      RawsPrint(digits[1..]);
      assert HexDigit(digits[0]);
      PrintFirst(Raw(digits[0]), Raws(digits[1..]));
    }
  }

  lemma {:induction false} PrintFirst(u: Unit, rest: seq<Unit>)
    ensures PrintUnits([u] + rest) == PrintUnit(u) + PrintUnits(rest)
  {
    assert ([u] + rest)[1..] == rest;
  }

  lemma {:induction false} UnitsOfLetter(x: Letter)
    requires GoodLetter(x)
    ensures ProperUnits(Units(x)) && PrintUnits(Units(x)) == PrintLetter(x)
  {
    match x
    case Itself(c) => assert [Raw(c)][1..] == [];
    case Short(c) => assert [Escaped(c)][1..] == [];
    case Code(digits) =>
      RawsPrint(digits);
      PrintFirst(Escaped('u'), Raws(digits));
  }

  lemma {:induction false} TextUnits(letters: seq<Letter>) returns (body: seq<Unit>)
    requires GoodText(letters)
    ensures ProperUnits(body) && PrintUnits(body) == PrintLetters(letters)
  {
    if letters == [] {
      body := [];
    } else {
      hide Units, PrintLetter, PrintUnits, ProperUnits, GoodLetter;
      body := TextUnits(letters[1..]);
      UnitsOfLetter(letters[0]);
      UnitsConcat(Units(letters[0]), body);
      body := Units(letters[0]) + body;
    }
    assert letters == [] ==> PrintUnits([]) == "";
  }

  lemma {:induction false} TextIsPieces(letters: seq<Letter>)
    requires GoodText(letters)
    ensures IsPieces(PrintText(letters))
  {
    var body := TextUnits(letters);
    hide IsPieces, PrintUnits, ProperUnits, PrintLetters;
    OnePiece(Quoted(body), PrintText(letters));
  }

  lemma {:induction false} GroupPieces(opener: char, inside: string) returns (inner: seq<Piece>)
    requires IsOpener(opener) && IsPieces(inside)
    ensures Proper(Group(opener, inner)) && Print(Group(opener, inner)) == [opener] + inside + [CloserOf(opener)]
  {
    inner :| ProperAll(inner) && PrintAll(inner) == inside;
  }

  lemma {:induction false} SpaceIsPieces(text: string)
    requires IsSpace(text)
    ensures IsPieces(text)
  {
    hide IsPieces;
    PlainText(text);
  }

  lemma {:induction false} JsonIsPieces(v: Json)
    requires WellFormed(v)
    ensures IsPieces(PrintJson(v))
    decreases v, 0
  {
    hide IsPieces, PrintText, PrintItems, PrintFields, Print, GoodText, IsSpace;
    match v
    case Null => PlainText("null");
    case Bool(value) => PlainText(if value then "true" else "false");
    case Number(digits) => PlainText(digits);
    case Text(letters) => TextIsPieces(letters);
    case Array(gap, items) =>
      if items == [] { SpaceIsPieces(gap); } else { ItemsArePieces(items); }
      var inner := GroupPieces('[', if items == [] then gap else PrintItems(items));
      OnePiece(Group('[', inner), PrintJson(v));
    case Object(gap, fields) =>
      if fields == [] { SpaceIsPieces(gap); } else { FieldsArePieces(fields); }
      var inner := GroupPieces('{', if fields == [] then gap else PrintFields(fields));
      OnePiece(Group('{', inner), PrintJson(v));
  }

  lemma {:induction false} ItemIsPieces(item: Spaced)
    requires GoodItem(item)
    ensures IsPieces(PrintSpaced(item))
    decreases item, 0
  {
    hide IsPieces, PrintJson, WellFormed, IsSpace;
    SpaceIsPieces(item.left);
    JsonIsPieces(item.value);
    SpaceIsPieces(item.right);
    PiecesConcat(item.left, PrintJson(item.value));
    PiecesConcat(item.left + PrintJson(item.value), item.right);
  }

  lemma {:induction false} FieldIsPieces(f: Field)
    requires GoodField(f)
    ensures IsPieces(PrintField(f))
    decreases f, 0
  {
    hide IsPieces, PrintSpaced, GoodItem, IsSpace, PrintText, GoodText;
    SpaceIsPieces(f.left);
    TextIsPieces(f.name);
    SpaceIsPieces(f.right);
    PlainText(":");
    ItemIsPieces(f.value);
    PiecesConcat(f.left, PrintText(f.name));
    PiecesConcat(f.left + PrintText(f.name), f.right);
    PiecesConcat(f.left + PrintText(f.name) + f.right, ":");
    PiecesConcat(f.left + PrintText(f.name) + f.right + ":", PrintSpaced(f.value));
  }

  lemma {:induction false} ItemsArePieces(items: seq<Spaced>)
    requires forall item | item in items :: GoodItem(item)
    ensures IsPieces(PrintItems(items))
    decreases items, 1
  {
    hide IsPieces, PrintSpaced, GoodItem;
    PlainText("");
    PlainText(",");
    if items != [] {
      var separator := if |items| == 1 then "" else ",";
      ItemIsPieces(items[0]);
      ItemsArePieces(items[1..]);
      PiecesConcat(PrintSpaced(items[0]), separator);
      PiecesConcat(PrintSpaced(items[0]) + separator, PrintItems(items[1..]));
    }
  }

  lemma {:induction false} FieldsArePieces(fields: seq<Field>)
    requires forall f | f in fields :: GoodField(f)
    ensures IsPieces(PrintFields(fields))
    decreases fields, 1
  {
    hide IsPieces, PrintField, GoodField;
    PlainText("");
    PlainText(",");
    if fields != [] {
      var separator := if |fields| == 1 then "" else ",";
      FieldIsPieces(fields[0]);
      FieldsArePieces(fields[1..]);
      PiecesConcat(PrintField(fields[0]), separator);
      PiecesConcat(PrintField(fields[0]) + separator, PrintFields(fields[1..]));
    }
  }

  lemma {:induction false} JsonIsGroup(v: Json) returns (opener: char, inner: seq<Piece>)
    requires (v.Array? || v.Object?) && WellFormed(v)
    ensures Proper(Group(opener, inner)) && Print(Group(opener, inner)) == PrintJson(v)
  {
    hide IsPieces, PrintItems, PrintFields, Print, GoodItem, GoodField, IsSpace;
    if v.Array? {
      if v.items == [] { SpaceIsPieces(v.gap); } else { ItemsArePieces(v.items); }
      opener := '[';
      inner := GroupPieces('[', if v.items == [] then v.gap else PrintItems(v.items));
    } else {
      if v.fields == [] { SpaceIsPieces(v.gap); } else { FieldsArePieces(v.fields); }
      opener := '{';
      inner := GroupPieces('{', if v.fields == [] then v.gap else PrintFields(v.fields));
    }
  }

  /** An array or object in any spelling is cut out whole, whatever text without openers stands before
      it and whatever text at all stands behind it. */
  lemma {:induction false} PrintedJsonIsFound(before: string, v: Json, after: string)
    requires (v.Array? || v.Object?) && WellFormed(v) && forall c | c in before :: !IsOpener(c)
    ensures Balanced(before + PrintJson(v) + after) == (PrintJson(v), true)
  {
    var opener, inner := JsonIsGroup(v);
    hide Balanced, Print, Proper, PrintJson, WellFormed;
    GroupIsFound(before, opener, inner, after);
  }
}
