/** What the two CMS document schemas share: the slug generator both of them
    configure, and the declarative field rules (`Rule.required()`, `.max(n)`)
    with the validation that applies them to a document. */
module SchemaRules {
  import opened Common

  // ---------------------------------------------------------------------------
  // Slug generation

  /** The `options` of a slug field: the field it is generated from and its length cap. */
  datatype SlugOptions = SlugOptions(source: string, maxLength: nat)

  /** The length at which `slugify` cuts. */
  const SlugMaxLength: nat := 96

  /** `toLowerCase` on one character, ASCII letters only. */
  function LowerChar(c: char): (r: char)
    ensures !IsUpper(r)
    ensures IsUpper(c) ==> r as int == c as int + 32
    ensures !IsUpper(c) ==> r == c
  {
    if IsUpper(c) then (c as int + 32) as char else c
  }

  function ToLower(s: string): (r: string)
    ensures |r| == |s|
    ensures forall i :: 0 <= i < |s| ==> r[i] == LowerChar(s[i])
  {
    seq(|s|, i requires 0 <= i < |s| => LowerChar(s[i]))
  }

  predicate NoUpper(s: string) {
    forall i :: 0 <= i < |s| ==> !IsUpper(s[i])
  }

  /** Drops the whitespace at the front of `s`. */
  function TrimLeadingWhitespace(s: string): (r: string)
    ensures |r| <= |s| && r == s[|s| - |r|..]
    ensures r == [] || !IsWhitespace(r[0])
    ensures forall i :: 0 <= i < |s| - |r| ==> IsWhitespace(s[i])
  {
    if s != [] && IsWhitespace(s[0]) then TrimLeadingWhitespace(s[1..]) else s
  }

  /** `s.replace(/\s+/g, '-')`: every maximal run of whitespace becomes one `-`. */
  function Hyphenate(s: string): (r: string)
    ensures |r| <= |s|
    ensures NoWhitespace(r)
    ensures forall i :: 0 <= i < |r| ==> r[i] == '-' || r[i] in s
    decreases |s|
  {
    if s == [] then []
    else if IsWhitespace(s[0]) then "-" + Hyphenate(TrimLeadingWhitespace(s[1..]))
    else [s[0]] + Hyphenate(s[1..])
  }

  /** The `slugify` option of both schemas: lower-case, hyphenate, then keep at most 96
      UTF-16 code units. */
  function Slugify(input: string): (r: string)
    ensures Utf16Length(r) <= SlugMaxLength && |r| <= SlugMaxLength
    ensures NoWhitespace(r) && NoUpper(r)
  {
    var h := Hyphenate(ToLower(input));
    assert NoUpper(h) by {
      forall i | 0 <= i < |h| ensures !IsUpper(h[i]) {
        if h[i] != '-' {
          var j :| 0 <= j < |ToLower(input)| && ToLower(input)[j] == h[i];
        }
      }
    }
    Utf16Prefix(h, SlugMaxLength)
  }

  lemma {:induction false} TrimRun(run: string, rest: string)
    requires forall i :: 0 <= i < |run| ==> IsWhitespace(run[i])
    requires rest == [] || !IsWhitespace(rest[0])
    ensures TrimLeadingWhitespace(run + rest) == rest
  {
    if run == [] {
      assert run + rest == rest;
    } else {
      assert (run + rest)[1..] == run[1..] + rest;
      TrimRun(run[1..], rest);
    }
  }

  /** Hyphenation replaces a maximal whitespace run by exactly one `-` and leaves
      the text before it unchanged. */
  lemma {:induction false} HyphenateRun(word: string, run: string, rest: string)
    requires NoWhitespace(word)
    requires |run| > 0 && forall i :: 0 <= i < |run| ==> IsWhitespace(run[i])
    requires rest == [] || !IsWhitespace(rest[0])
    ensures Hyphenate(word + run + rest) == word + "-" + Hyphenate(rest)
  {
    var s := word + run + rest;
    if word == [] {
      assert s == run + rest;
      assert s[0] == run[0] && s[1..] == run[1..] + rest;
      calc {
        Hyphenate(s);
        "-" + Hyphenate(TrimLeadingWhitespace(run[1..] + rest));
        { TrimRun(run[1..], rest); }
        "-" + Hyphenate(rest);
        word + "-" + Hyphenate(rest);
      }
    } else {
      assert s[0] == word[0] && !IsWhitespace(word[0]);
      assert s[1..] == word[1..] + run + rest;
      assert NoWhitespace(word[1..]) by {
        forall i | 0 <= i < |word[1..]| ensures !IsWhitespace(word[1..][i]) {
          assert word[1..][i] == word[i + 1];
        }
      }
      calc {
        Hyphenate(s);
        [word[0]] + Hyphenate(word[1..] + run + rest);
        { HyphenateRun(word[1..], run, rest); }
        [word[0]] + (word[1..] + "-" + Hyphenate(rest));
        { assert [word[0]] + word[1..] == word; }
        word + "-" + Hyphenate(rest);
      }
    }
  }

  /** Text without whitespace is left as it is by hyphenation. */
  lemma {:induction false} HyphenateNoWhitespace(s: string)
    requires NoWhitespace(s)
    ensures Hyphenate(s) == s
  {
    if s != [] {
      HyphenateNoWhitespace(s[1..]);
      assert s == [s[0]] + s[1..];
    }
  }

  lemma ToLowerNoUpper(s: string)
    requires NoUpper(s)
    ensures ToLower(s) == s
  {
  }

  /** Truncation applies to the already hyphenated text: the slug is the longest prefix
      of the hyphenated, lower-cased input that fits in 96 code units, all of it when it
      fits, and its first `min(96, n)` characters when it lies in the Basic Multilingual Plane. */
  lemma SlugifyTruncatesAfterHyphenating(input: string)
    ensures var h := Hyphenate(ToLower(input)); var r := Slugify(input);
      && r <= h
      && (Utf16Length(h) <= SlugMaxLength ==> r == h)
      && (r != h ==> Utf16Length(r) + CodeUnits(h[|r|]) > SlugMaxLength)
      && (InBmp(h) ==> r == h[..if |h| < SlugMaxLength then |h| else SlugMaxLength])
  {
    var h := Hyphenate(ToLower(input));
    if InBmp(h) {
      Utf16PrefixInBmp(h, SlugMaxLength);
    }
  }

  /** A slug is a fixed point of slug generation. */
  lemma SlugifyIdempotent(input: string)
    ensures Slugify(Slugify(input)) == Slugify(input)
  {
    var r := Slugify(input);
    ToLowerNoUpper(r);
    HyphenateNoWhitespace(r);
  }

  // ---------------------------------------------------------------------------
  // Field validation

  /** The value of one document field, as validation sees it: a string, an array of
      `length` items, or any other value (an image, a slug object, a date). */
  datatype FieldValue = Unset | Text(text: string) | List(length: nat) | Other

  /** What `required()` accepts: a value, and for strings and arrays a non-empty one. */
  predicate HasValue(v: FieldValue) {
    match v
    case Unset => false
    case Text(t) => t != ""
    case List(n) => n > 0
    case Other => true
  }

  /** The validation rules the two schemas use: the written `required()` and `max(n)`,
      and the `valid(list)` that the studio derives from a field's `options.list`. */
  datatype Rule = Required | MaxLength(limit: nat) | OneOf(values: seq<string>)

  /** One entry of a schema's `fields` list: a field name and its `validation` chain. */
  datatype FieldSpec = FieldSpec(name: string, rules: seq<Rule>)

  /** A document as a map from field names to values; a missing key is an unset field. */
  type Document = map<string, FieldValue>

  function ValueOf(doc: Document, field: string): FieldValue {
    if field in doc then doc[field] else Unset
  }

  predicate Present(doc: Document, field: string) {
    HasValue(ValueOf(doc, field))
  }

  predicate TextWithin(doc: Document, field: string, limit: nat) {
    !ValueOf(doc, field).Text? || Utf16Length(ValueOf(doc, field).text) <= limit
  }

  predicate TextAmong(doc: Document, field: string, values: seq<string>) {
    !ValueOf(doc, field).Text? || ValueOf(doc, field).text in values
  }

  /** Whether one value passes one rule; `.max(n)` counts a string's UTF-16 code units,
      and it and the list rule only constrain strings, leaving the rest to `required()`. */
  predicate Satisfies(v: FieldValue, rule: Rule) {
    match rule
    case Required => HasValue(v)
    case MaxLength(n) => !v.Text? || Utf16Length(v.text) <= n
    case OneOf(values) => !v.Text? || v.text in values
  }

  predicate FieldValid(doc: Document, spec: FieldSpec) {
    forall j :: 0 <= j < |spec.rules| ==> Satisfies(ValueOf(doc, spec.name), spec.rules[j])
  }

  /** A document passes validation when every field passes every rule of its chain. */
  predicate DocumentValid(specs: seq<FieldSpec>, doc: Document) {
    forall i :: 0 <= i < |specs| ==> FieldValid(doc, specs[i])
  }

  /** The names of the fields whose rules the document breaks: what the editor lists as
      validation errors. Every failing field is listed and nothing else. */
  function FailingFields(specs: seq<FieldSpec>, doc: Document): (r: seq<string>)
    ensures r == [] <==> DocumentValid(specs, doc)
    ensures forall i :: 0 <= i < |specs| && !FieldValid(doc, specs[i]) ==> specs[i].name in r
  {
    if specs == [] then []
    else
      var rest := FailingFields(specs[1..], doc);
      assert forall i :: 1 <= i < |specs| ==> specs[i] == specs[1..][i - 1];
      assert DocumentValid(specs, doc) <==> FieldValid(doc, specs[0]) && DocumentValid(specs[1..], doc);
      if FieldValid(doc, specs[0]) then rest
      else [specs[0].name] + rest
  }

  /** Every name on the list is that of a field whose rules the document breaks. */
  lemma {:induction false} FailingFieldsListOnlyFailing(specs: seq<FieldSpec>, doc: Document, k: nat)
    requires k < |FailingFields(specs, doc)|
    ensures exists i :: 0 <= i < |specs| && specs[i].name == FailingFields(specs, doc)[k]
                        && !FieldValid(doc, specs[i])
  {
    var tail := specs[1..];
    var rest := FailingFields(tail, doc);
    if FieldValid(doc, specs[0]) {
      assert FailingFields(specs, doc) == rest;
      FailingFieldsListOnlyFailing(tail, doc, k);
      var i :| 0 <= i < |tail| && tail[i].name == rest[k] && !FieldValid(doc, tail[i]);
      assert specs[i + 1] == tail[i];
    } else if k > 0 {
      assert FailingFields(specs, doc) == [specs[0].name] + rest;
      assert FailingFields(specs, doc)[k] == rest[k - 1];
      FailingFieldsListOnlyFailing(tail, doc, k - 1);
      var i :| 0 <= i < |tail| && tail[i].name == rest[k - 1] && !FieldValid(doc, tail[i]);
      assert specs[i + 1] == tail[i];
    } else {
      assert FailingFields(specs, doc)[0] == specs[0].name;
    }
  }

  /** Whether `i` is the first field of the schema whose rules the document breaks. */
  predicate FirstFailing(specs: seq<FieldSpec>, doc: Document, i: nat) {
    i < |specs| && !FieldValid(doc, specs[i]) && forall j :: 0 <= j < i ==> FieldValid(doc, specs[j])
  }

  /** The list follows the schema order: it starts with the first failing field. */
  lemma {:induction false} FailingFieldsStartWithFirst(specs: seq<FieldSpec>, doc: Document, i: nat)
    requires FirstFailing(specs, doc, i)
    ensures FailingFields(specs, doc) != [] && FailingFields(specs, doc)[0] == specs[i].name
  {
    if i > 0 {
      assert FieldValid(doc, specs[0]);
      assert FirstFailing(specs[1..], doc, i - 1) by {
        forall j | 0 <= j < i - 1 ensures FieldValid(doc, specs[1..][j]) {
          assert specs[1..][j] == specs[j + 1];
        }
      }
      FailingFieldsStartWithFirst(specs[1..], doc, i - 1);
    }
  }

  /** A field whose chain carries no rule never affects validity, whatever its value. */
  lemma UnruledFieldIrrelevant(specs: seq<FieldSpec>, doc: Document, field: string, v: FieldValue)
    requires forall i :: 0 <= i < |specs| && specs[i].name == field ==> specs[i].rules == []
    ensures DocumentValid(specs, doc[field := v]) <==> DocumentValid(specs, doc)
  {
    forall i | 0 <= i < |specs|
      ensures FieldValid(doc[field := v], specs[i]) <==> FieldValid(doc, specs[i])
    {
      if specs[i].name != field {
        assert ValueOf(doc[field := v], specs[i].name) == ValueOf(doc, specs[i].name);
      }
    }
  }
}
