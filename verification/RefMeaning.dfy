/**
 What stands where a local `$ref` was, key by key, and that every place of a document is found under its
 pointer (RFC 6901).
 */
module RefMeaning {
  import opened Wrappers
  import opened Json
  import opened Schema
  import opened Refs

  // ----- expansion, key by key -----

  lemma {:induction false} MergedLookup(a: seq<Field>, b: seq<Field>, key: string)
    requires DistinctKeys(b)
    ensures Lookup(Merge(a, b), key) == if Has(b, key) then Lookup(b, key) else Lookup(a, key)
  {
    if b != [] {
      var front, last := b[..|b| - 1], b[|b| - 1];
      MergedLookup(a, front, key);
      MergedOne(Lookup(a, key), Merge(a, front), front, last, key);
      assert b == front + [last];
    }
  }

  lemma MergedOne(below: Option<Json>, merged: seq<Field>, front: seq<Field>, last: Field, key: string)
    requires forall i | 0 <= i < |front| :: front[i].key != last.key
    requires Lookup(merged, key) == if Has(front, key) then Lookup(front, key) else below
    ensures Lookup(Put(merged, last), key)
         == if Has(front + [last], key) then Lookup(front + [last], key) else below
  {
    PutLookup(merged, last, key);
    SnocLookup(front, last, key);
  }

  lemma {:induction false} PutLookup(fields: seq<Field>, f: Field, key: string)
    ensures Lookup(Put(fields, f), key) == if key == f.key then Some(f.value) else Lookup(fields, key)
  {
    if fields != [] && fields[0].key != f.key {
      PutLookup(fields[1..], f, key);
      assert Put(fields, f) == [fields[0]] + Put(fields[1..], f);
    }
  }

  lemma {:induction false} SnocLookup(front: seq<Field>, last: Field, key: string)
    requires forall i | 0 <= i < |front| :: front[i].key != last.key
    ensures Lookup(front + [last], key) == if key == last.key then Some(last.value) else Lookup(front, key)
  {
    if front != [] {
      assert (front + [last])[1..] == front[1..] + [last];
      SnocLookup(front[1..], last, key);
    }
  }

  lemma {:induction false} WithoutRefLookup(fields: seq<Field>, key: string)
    ensures Lookup(WithoutRef(fields), key) == if key == "$ref" then None else Lookup(fields, key)
  {
    if fields != [] {
      WithoutRefLookup(fields[1..], key);
      var rest := WithoutRef(fields[1..]);
      if fields[0].key == "$ref" {
        assert WithoutRef(fields) == rest;
      } else {
        assert WithoutRef(fields) == [fields[0]] + rest && ([fields[0]] + rest)[1..] == rest;
      }
    }
  }

  /** A dict whose local `$ref` leads to a value gets the keys of that value, expanded, under its own: each
      key has the sibling's value if there is one, and otherwise what the expanded target has. */
  lemma TargetStandsForRef(lib: Library, fields: seq<Field>, root: Json, seen: set<string>, key: string)
    requires WellFormed(Obj(fields)) && Resolvable(lib, root, fields) && LocalRef(fields).value !in seen
    requires Resolve(lib, Obj(fields), root, seen).Some?
    ensures var ref := LocalRef(fields).value;
      var r, t := Resolve(lib, Obj(fields), root, seen),
                  Resolve(lib, Pointee(lib, root, ref).value, root, seen + {ref});
      && t.Some? && r.value.Obj?
      && Lookup(r.value.fields, key)
         == if key != "$ref" && Has(fields, key) then Lookup(fields, key)
            else if t.value.Obj? then Lookup(t.value.fields, key)
            else None
  {
    var ref := LocalRef(fields).value;
    var t := Resolve(lib, Pointee(lib, root, ref).value, root, seen + {ref}).value;
    WithoutRefDistinct(fields);
    MergedLookup(if t.Obj? then t.fields else [], WithoutRef(fields), key);
    WithoutRefLookup(fields, key);
  }

  /** A pointer that is being expanded already stands for the empty schema. */
  lemma CycleIsCut(lib: Library, fields: seq<Field>, root: Json, seen: set<string>)
    requires LocalRef(fields).Some? && LocalRef(fields).value in seen
    ensures Resolve(lib, Obj(fields), root, seen) == Some(EmptyObj)
  {
  }

  /** A dict without a local `$ref` keeps its keys, in order, each with its value expanded. */
  lemma KeysAreKept(lib: Library, fields: seq<Field>, root: Json, seen: set<string>)
    requires LocalRef(fields).None? && Resolve(lib, Obj(fields), root, seen).Some?
    ensures var r := Resolve(lib, Obj(fields), root, seen).value;
      && r.Obj? && |r.fields| == |fields|
      && forall i | 0 <= i < |fields| ::
           && r.fields[i].key == fields[i].key
           && Resolve(lib, fields[i].value, root, seen) == Some(r.fields[i].value)
  {
    FieldsOneByOne(lib, fields, root, seen);
  }

  lemma {:induction false} FieldsOneByOne(lib: Library, fields: seq<Field>, root: Json, seen: set<string>)
    requires ResolveFields(lib, fields, root, seen).Some?
    ensures var out := ResolveFields(lib, fields, root, seen).value;
      && |out| == |fields|
      && forall i | 0 <= i < |fields| ::
           out[i].key == fields[i].key && Resolve(lib, fields[i].value, root, seen) == Some(out[i].value)
    decreases |fields|
  {
    if fields != [] {
      FieldsOneByOne(lib, fields[1..], root, seen);
    }
  }

  /** A list keeps its items, in order, each expanded; other values stay as they are. */
  lemma ItemsAreKept(lib: Library, items: seq<Json>, root: Json, seen: set<string>)
    requires Resolve(lib, Arr(items), root, seen).Some?
    ensures var r := Resolve(lib, Arr(items), root, seen).value;
      && r.Arr? && |r.items| == |items|
      && forall i | 0 <= i < |items| :: Resolve(lib, items[i], root, seen) == Some(r.items[i])
  {
    ItemsOneByOne(lib, items, root, seen);
  }

  lemma {:induction false} ItemsOneByOne(lib: Library, items: seq<Json>, root: Json, seen: set<string>)
    requires ResolveItems(lib, items, root, seen).Some?
    ensures var out := ResolveItems(lib, items, root, seen).value;
      |out| == |items| && forall i | 0 <= i < |items| :: Resolve(lib, items[i], root, seen) == Some(out[i])
    decreases |items|
  {
    if items != [] {
      ItemsOneByOne(lib, items[1..], root, seen);
    }
  }

  /** A local `$ref` that leads nowhere, or to null, leaves its dict alone. */
  lemma DanglingIsKept(lib: Library, fields: seq<Field>, root: Json, seen: set<string>)
    requires LocalRef(fields).Some? && LocalRef(fields).value !in seen
    requires var t := Pointee(lib, root, LocalRef(fields).value); t.NotFound? || (t.Found? && t.value.Null?)
    ensures Resolve(lib, Obj(fields), root, seen) == Some(Obj(fields))
  {
  }

  // ----- every place of a document has a pointer (RFC 6901, sections 3 to 6) -----

  /** One step into a document: a key of a dict or an index of a list. */
  datatype Into = Key(key: string) | At(index: nat)

  function Escape(key: string): string {
    if key == "" then ""
    else (if key[0] == '~' then "~0" else if key[0] == '/' then "~1" else [key[0]]) + Escape(key[1..])
  }

  function DecimalText(n: nat): string {
    if n < 10 then [(n + '0' as int) as char] else DecimalText(n / 10) + [(n % 10 + '0' as int) as char]
  }

  function Token(into: Into): string {
    match into
    case Key(key) => Escape(key)
    case At(index) => DecimalText(index)
  }

  function PointerText(path: seq<Into>): string {
    if path == [] then "" else "/" + Token(path[0]) + PointerText(path[1..])
  }

  function Inside(node: Json, into: Into): Option<Json> {
    match into
    case Key(key) => if node.Obj? then Lookup(node.fields, key) else None
    case At(index) => if node.Arr? && index < |node.items| then Some(node.items[index]) else None
  }

  /** The value at a path, if the document has that place. */
  function ValueAt(root: Json, path: seq<Into>): Option<Json>
    decreases |path|
  {
    if path == [] then Some(root)
    else
      var v :- Inside(root, path[0]);
      ValueAt(v, path[1..])
  }

  predicate NoSlash(s: string) {
    forall i | 0 <= i < |s| :: s[i] != '/'
  }

  lemma {:induction false} EscapedHasNoSlash(key: string)
    ensures NoSlash(Escape(key))
  {
    if key != "" {
      EscapedHasNoSlash(key[1..]);
    }
  }

  /** Halfway back: slashes restored, tildes still escaped. */
  function TildesEscaped(key: string): string {
    if key == "" then "" else (if key[0] == '~' then "~0" else [key[0]]) + TildesEscaped(key[1..])
  }

  lemma {:induction false} SlashesRestored(key: string)
    ensures ReplaceTilde(Escape(key), '1', '/') == TildesEscaped(key)
  {
    if key != "" {
      SlashesRestored(key[1..]);
      var rest := Escape(key[1..]);
      if key[0] == '~' {
        assert ("~0" + rest)[1..] == "0" + rest && ("0" + rest)[1..] == rest;
        assert ReplaceTilde("0" + rest, '1', '/') == "0" + ReplaceTilde(rest, '1', '/');
      } else if key[0] == '/' {
        assert ("~1" + rest)[2..] == rest;
      } else {
        assert ([key[0]] + rest)[1..] == rest;
      }
    }
  }

  lemma {:induction false} TildesRestored(key: string)
    ensures ReplaceTilde(TildesEscaped(key), '0', '~') == key
  {
    if key != "" {
      TildesRestored(key[1..]);
      var rest := TildesEscaped(key[1..]);
      if key[0] == '~' {
        assert ("~0" + rest)[2..] == rest;
      } else {
        assert ([key[0]] + rest)[1..] == rest;
      }
    }
  }

  lemma {:induction false} DigitsOnly(n: nat)
    ensures IsDigits(DecimalText(n)) && DecimalValue(DecimalText(n)) == n
  {
    if n >= 10 {
      DigitsOnly(n / 10);
      var front, last := DecimalText(n / 10), (n % 10 + '0' as int) as char;
      assert (front + [last])[..|front|] == front;
    } else {
      var digits := DecimalText(n);
      assert digits[..0] == "" && DecimalValue(digits[..0]) == 0;
    }
  }

  lemma TokenHasNoSlash(into: Into)
    ensures NoSlash(Token(into))
  {
    match into
    case Key(key) => EscapedHasNoSlash(key);
    case At(index) => DigitsOnly(index);
  }

  /** The pointer's text is cut where its steps meet. */
  lemma {:induction false} SplitToken(token: string, rest: string)
    requires NoSlash(token)
    ensures Split(token, '/') == [token]
    ensures Split(token + "/" + rest, '/') == [token] + Split(rest, '/')
  {
    if token == "" {
      assert ("" + "/" + rest)[1..] == rest;
    } else {
      SplitToken(token[1..], rest);
      assert (token + "/" + rest)[1..] == token[1..] + "/" + rest;
      assert token == [token[0]] + token[1..];
    }
  }

  function Tokens(path: seq<Into>): seq<string> {
    seq(|path|, i requires 0 <= i < |path| => Token(path[i]))
  }

  lemma SplitFirst(token: string, rest: string)
    requires NoSlash(token) && (rest != "" ==> rest[0] == '/')
    ensures Split(token + rest, '/') == [token] + if rest == "" then [] else Split(rest[1..], '/')
  {
    if rest == "" {
      SplitToken(token, "");
      assert token + rest == token;
    } else {
      SplitToken(token, rest[1..]);
      assert token + rest == token + "/" + rest[1..];
    }
  }

  lemma TokensCons(path: seq<Into>)
    requires path != []
    ensures Tokens(path) == [Token(path[0])] + Tokens(path[1..])
  {
  }

  /** The text begins with its first step's token. */
  lemma PointerCons(path: seq<Into>)
    requires path != []
    ensures PointerText(path)[1..] == Token(path[0]) + PointerText(path[1..])
    ensures path[1..] != [] ==> PointerText(path[1..]) != "" && PointerText(path[1..])[0] == '/'
  {
    AfterSlash(Token(path[0]), PointerText(path[1..]));
    BeginsWithSlash(path[1..]);
  }

  lemma AfterSlash(token: string, rest: string)
    ensures ("/" + token + rest)[1..] == token + rest
  {
  }

  lemma BeginsWithSlash(path: seq<Into>)
    ensures path != [] ==> PointerText(path) != "" && PointerText(path)[0] == '/'
  {
  }

  lemma {:induction false} SplitPointer(path: seq<Into>)
    requires path != []
    ensures Split(PointerText(path)[1..], '/') == Tokens(path)
    decreases |path|
  {
    TokenHasNoSlash(path[0]);
    PointerCons(path);
    TokensCons(path);
    SplitFirst(Token(path[0]), PointerText(path[1..]));
    if path[1..] == [] {
      assert Tokens(path[1..]) == [];
    } else {
      SplitPointer(path[1..]);
    }
  }

  /** Percent-decoding leaves the tokens of the path alone. */
  predicate Unquoted(lib: Library, path: seq<Into>) {
    forall i | 0 <= i < |path| :: lib.unquote(Token(path[i])) == Token(path[i])
  }

  lemma StepFollows(lib: Library, node: Json, into: Into)
    requires lib.unquote(Token(into)) == Token(into)
    ensures Inside(node, into).Some? ==> Step(lib, node, Token(into)) == Found(Inside(node, into).value)
  {
    match into
    case Key(key) =>
      SlashesRestored(key);
      TildesRestored(key);
    case At(index) =>
      DigitsOnly(index);
      NoTildes(DecimalText(index), '1', '/');
      NoTildes(DecimalText(index), '0', '~');
  }

  lemma {:induction false} NoTildes(s: string, code: char, plain: char)
    requires IsDigits(s) || s == ""
    ensures ReplaceTilde(s, code, plain) == s
  {
    if |s| >= 2 {
      NoTildes(s[1..], code, plain);
    }
  }

  lemma {:induction false} WalkFollows(lib: Library, node: Json, path: seq<Into>)
    requires Unquoted(lib, path) && ValueAt(node, path).Some?
    ensures Walk(lib, node, Tokens(path)) == Found(ValueAt(node, path).value)
    decreases |path|
  {
    if path != [] {
      var into := path[0];
      StepFollows(lib, node, into);
      var next := Inside(node, into).value;
      WalkFollows(lib, next, path[1..]);
      assert Tokens(path)[0] == Token(into) && Tokens(path)[1..] == Tokens(path[1..]);
    }
  }

  lemma PointeeWalks(lib: Library, root: Json, text: string)
    requires |text| > 1 && text[0] == '/'
    ensures Pointee(lib, root, "#" + text) == Walk(lib, root, Split(text[1..], '/'))
  {
    var pointer := "#" + text;
    assert pointer[2..] == text[1..] && "#/" <= pointer && |pointer| > 2;
  }

  /** Every place of a document is found under its pointer, but for the place of the empty key ... */
  lemma PlacesAreFound(lib: Library, root: Json, path: seq<Into>)
    requires Unquoted(lib, path) && ValueAt(root, path).Some? && path != [Key("")]
    ensures Pointee(lib, root, "#" + PointerText(path)) == Found(ValueAt(root, path).value)
  {
    var text := PointerText(path);
    if path == [] {
      assert "#" + text == "#";
    } else {
      BeginsWithSlash(path);
      if |text| == 1 {
        OnlySlash(path);
      }
      PointeeWalks(lib, root, text);
      SplitPointer(path);
      WalkFollows(lib, root, path);
    }
  }

  lemma OnlySlash(path: seq<Into>)
    requires path != [] && |PointerText(path)| == 1
    ensures path == [Key("")]
  {
    var token := Token(path[0]);
    assert |PointerText(path)| == 1 + |token| + |PointerText(path[1..])|;
    match path[0]
    case Key(key) => assert key == "";
    case At(index) => DigitsOnly(index);
  }

  /** ... whose pointer is taken for the whole document. */
  lemma EmptyKeyIsTheRoot(lib: Library, root: Json)
    ensures Pointee(lib, root, "#" + PointerText([Key("")])) == Found(root)
  {
    assert PointerText([Key("")][1..]) == "";
    assert "#" + PointerText([Key("")]) == "#/";
  }

  /** A negative index counts from the end; it raises before the start, as two minus signs do. */
  lemma NegativeIndex(items: seq<Json>, n: nat)
    requires n > 0
    ensures var digits := DecimalText(n);
      && StripMinus("-" + digits) == digits == StripMinus("--" + digits) && IsDigits(digits)
      && Index(items, "-" + digits) == (if n <= |items| then Found(items[|items| - n]) else Raises)
      && Index(items, "--" + digits) == Raises
  {
    DigitsOnly(n);
    var digits := DecimalText(n);
    assert StripMinus(digits) == digits;
    assert ("-" + digits)[1..] == digits && ("--" + digits)[1..] == "-" + digits;
  }
}
