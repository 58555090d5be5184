/** Parsed JSON, and the few ways the capture scripts read it. One `char` stands for one UTF-16 code unit. */
module Json {
  import opened Wrappers

  datatype Json =
    | Null
    | Bool(truth: bool)
    | Num(number: int)
    | Str(text: string)
    | Arr(items: seq<Json>)
    | Obj(fields: map<string, Json>)

  /** `value?.key`: absent unless the value is an object with that field. */
  function Field(value: Option<Json>, key: string): Option<Json> {
    if value.Some? && value.value.Obj? && key in value.value.fields then Some(value.value.fields[key]) else None
  }

  /** `value.key` when it is a string, otherwise the empty string. */
  function StringOf(value: Option<Json>, key: string): string {
    match Field(value, key)
    case Some(Str(text)) => text
    case _ => ""
  }

  /** `value.key` is exactly this string. */
  predicate Says(value: Json, key: string, text: string) {
    Field(Some(value), key) == Some(Str(text))
  }

  // ---------------------------------------------------------------- paths

  /** Along these field names, from object to object, stands this value. */
  predicate Has(value: Json, path: seq<string>, leaf: Json)
    decreases |path|
  {
    if path == [] then value == leaf
    else value.Obj? && path[0] in value.fields && Has(value.fields[path[0]], path[1..], leaf)
  }

  /** The text along a path is this one, and the empty one if no string stands there. */
  ghost predicate TextIs(value: Json, path: seq<string>, text: string) {
    Has(value, path, Str(text)) || (text == "" && forall other: string :: !Has(value, path, Str(other)))
  }

  lemma HasNext(value: Json, key: string, rest: seq<string>, leaf: Json)
    ensures Has(value, [key] + rest, leaf) <==>
      Field(Some(value), key).Some? && Has(Field(Some(value), key).value, rest, leaf)
  {
    assert ([key] + rest)[1..] == rest;
  }

  lemma HasOne(value: Json, key: string, leaf: Json)
    ensures Has(value, [key], leaf) <==> Field(Some(value), key) == Some(leaf)
  {
    HasNext(value, key, [], leaf);
    assert [key] + [] == [key];
  }

  lemma HasTwo(value: Json, a: string, b: string, leaf: Json)
    ensures Has(value, [a, b], leaf) <==> Field(Field(Some(value), a), b) == Some(leaf)
  {
    HasNext(value, a, [b], leaf);
    assert [a] + [b] == [a, b];
    if Field(Some(value), a).Some? { HasOne(Field(Some(value), a).value, b, leaf); }
  }

  lemma HasThree(value: Json, a: string, b: string, c: string, leaf: Json)
    ensures Has(value, [a, b, c], leaf) <==> Field(Field(Field(Some(value), a), b), c) == Some(leaf)
  {
    HasNext(value, a, [b, c], leaf);
    assert [a] + [b, c] == [a, b, c];
    if Field(Some(value), a).Some? { HasTwo(Field(Some(value), a).value, b, c, leaf); }
  }

  lemma HasFour(value: Json, a: string, b: string, c: string, d: string, leaf: Json)
    ensures Has(value, [a, b, c, d], leaf) <==> Field(Field(Field(Field(Some(value), a), b), c), d) == Some(leaf)
  {
    HasNext(value, a, [b, c, d], leaf);
    assert [a] + [b, c, d] == [a, b, c, d];
    if Field(Some(value), a).Some? { HasThree(Field(Some(value), a).value, b, c, d, leaf); }
  }

  /** What stands along a path is one thing only. */
  lemma {:induction false} HasOnce(value: Json, path: seq<string>, a: Json, b: Json)
    requires Has(value, path, a) && Has(value, path, b)
    ensures a == b
    decreases |path|
  {
    if path != [] {
      HasOnce(value.fields[path[0]], path[1..], a, b);
    }
  }

  lemma TextOne(value: Json, key: string, text: string)
    ensures TextIs(value, [key], text) <==> StringOf(Some(value), key) == text
  {
    forall other: string
      ensures Has(value, [key], Str(other)) <==> Field(Some(value), key) == Some(Str(other))
    {
      HasOne(value, key, Str(other));
    }
  }

  lemma TextTwo(value: Json, a: string, b: string, text: string)
    ensures TextIs(value, [a, b], text) <==> StringOf(Field(Some(value), a), b) == text
  {
    forall other: string
      ensures Has(value, [a, b], Str(other)) <==> Field(Field(Some(value), a), b) == Some(Str(other))
    {
      HasTwo(value, a, b, Str(other));
    }
  }

  lemma TextThree(value: Json, a: string, b: string, c: string, text: string)
    ensures TextIs(value, [a, b, c], text) <==> StringOf(Field(Field(Some(value), a), b), c) == text
  {
    forall other: string
      ensures Has(value, [a, b, c], Str(other)) <==> Field(Field(Field(Some(value), a), b), c) == Some(Str(other))
    {
      HasThree(value, a, b, c, Str(other));
    }
  }

  // ---------------------------------------------------------------- truthiness and blanks

  /** JavaScript truthiness of an optional value. */
  predicate Truthy(value: Option<Json>) {
    match value
    case None => false
    case Some(Null) => false
    case Some(Bool(b)) => b
    case Some(Num(n)) => n != 0
    case Some(Str(text)) => text != ""
    case Some(_) => true
  }

  /** White space and line terminators as `String.prototype.trim` knows them. */
  predicate Blank(c: char) {
    c in "\t\n\U{0B}\U{0C}\r \U{A0}\U{1680}\U{2028}\U{2029}\U{202F}\U{205F}\U{3000}\U{FEFF}"
    || '\U{2000}' <= c <= '\U{200A}'
  }

  function TrimStart(s: string): string {
    if s != "" && Blank(s[0]) then TrimStart(s[1..]) else s
  }

  function TrimEnd(s: string): string {
    if s != "" && Blank(s[|s| - 1]) then TrimEnd(s[..|s| - 1]) else s
  }

  function Trim(s: string): string {
    TrimEnd(TrimStart(s))
  }

  /** Nothing in the text is visible to a reader. */
  predicate AllBlank(s: string) {
    forall i :: 0 <= i < |s| ==> Blank(s[i])
  }

  /** The blank characters are these and no others. */
  lemma BlankExactly(c: char)
    ensures Blank(c) <==>
      c as int in {9, 10, 11, 12, 13, 32, 160, 5760, 8232, 8233, 8239, 8287, 12288, 65279} || 8192 <= c as int <= 8202
  {
  }

  lemma {:induction false} TrimStartIs(s: string) returns (lo: nat)
    ensures lo <= |s| && TrimStart(s) == s[lo..] && AllBlank(s[..lo]) && (lo < |s| ==> !Blank(s[lo]))
  {
    lo := 0;
    if s != "" && Blank(s[0]) {
      var rest := TrimStartIs(s[1..]);
      lo := rest + 1;
      assert s[..lo] == [s[0]] + s[1..][..rest];
      assert s[1..][rest..] == s[lo..];
    }
  }

  lemma BlankMore(s: string, c: char)
    requires AllBlank(s) && Blank(c)
    ensures AllBlank(s + [c])
  {
  }

  lemma {:induction false} TrimEndIs(s: string) returns (hi: nat)
    ensures hi <= |s| && TrimEnd(s) == s[..hi] && AllBlank(s[hi..]) && (hi > 0 ==> !Blank(s[hi - 1]))
  {
    hi := |s|;
    if s != "" && Blank(s[|s| - 1]) {
      var init := s[..|s| - 1];
      hi := TrimEndIs(init);
      assert init[..hi] == s[..hi];
      BlankMore(init[hi..], s[|s| - 1]);
      assert s[hi..] == init[hi..] + [s[|s| - 1]];
    }
  }

  /** Trimming cuts the blanks at both ends and nothing else. */
  lemma TrimIs(s: string) returns (lo: nat, hi: nat)
    ensures lo <= hi <= |s| && Trim(s) == s[lo..hi] && AllBlank(s[..lo]) && AllBlank(s[hi..])
    ensures lo < hi ==> !Blank(s[lo]) && !Blank(s[hi - 1])
  {
    lo := TrimStartIs(s);
    var rest := s[lo..];
    var end := TrimEndIs(rest);
    hi := lo + end;
    assert rest[..end] == s[lo..hi];
    assert rest[end..] == s[hi..];
    assert end > 0 ==> rest[end - 1] == s[hi - 1];
  }

  /** Trimming leaves nothing exactly when every character is blank. */
  lemma TrimVisible(s: string)
    ensures Trim(s) == "" <==> AllBlank(s)
  {
    TrimStartVisible(s);
    TrimEndVisible(TrimStart(s));
  }

  lemma {:induction false} TrimStartVisible(s: string)
    ensures AllBlank(s) <==> AllBlank(TrimStart(s))
  {
    if s != "" && Blank(s[0]) {
      TrimStartVisible(s[1..]);
      assert s == [s[0]] + s[1..];
    }
  }

  lemma {:induction false} TrimEndVisible(s: string)
    ensures TrimEnd(s) == "" <==> AllBlank(s)
  {
    if s != "" && Blank(s[|s| - 1]) {
      TrimEndVisible(s[..|s| - 1]);
    }
  }
}
