/** What the line parser accepts, and that it inverts the line format of the protocol. */
module TextLineTheory {
  import opened TextLines

  // ---- Acceptance ----------------------------------------------------------

  function WordLength(s: string): (n: nat)
    ensures n <= |s|
    ensures s != "" && !IsSeparator(s[0]) ==> n > 0
  {
    if s == "" || IsSeparator(s[0]) then 0 else 1 + WordLength(s[1..])
  }

  /** The maximal runs of characters other than space and tab. */
  function Words(s: string): seq<string>
    decreases |s|
  {
    if s == "" then []
    else if IsSeparator(s[0]) then Words(s[1..])
    else [s[..WordLength(s)]] + Words(s[WordLength(s)..])
  }

  predicate Acceptable(tokens: seq<string>) {
    |tokens| <= MAX_TOKENS
    && (forall i :: 0 <= i < |tokens| ==> ValidToken(tokens[i], i == 0))
    && (forall i, j :: 1 <= i < j < |tokens| ==> FieldKey(tokens[i]) != FieldKey(tokens[j]))
  }

  lemma {:induction false} PlainWord(s: string)
    ensures WordLength(s) >= TokenLength(s)
    ensures TokenLength(s) < |s| && IsTerminator(s[TokenLength(s)])
            ==> TokenLength(s) < WordLength(s)
    ensures TokenLength(s) == |s| || IsSeparator(s[TokenLength(s)]) ==> TokenLength(s) == WordLength(s)
  {
    if s != "" && !IsSeparator(s[0]) && !IsTerminator(s[0]) {
      PlainWord(s[1..]);
    }
  }

  lemma Unprintable(token: string, i: nat, isCommand: bool)
    requires i < |token| && IsTerminator(token[i])
    ensures !ValidToken(token, isCommand)
  {
    assert token[i] in token;
  }

  lemma {:induction false} ParseFromAccepts(rest: string, tokens: seq<string>)
    requires Acceptable(tokens)
    ensures ParseFrom(rest, tokens).Ok? <==> tokens + Words(rest) != [] && Acceptable(tokens + Words(rest))
    ensures ParseFrom(rest, tokens).Ok? ==> ParseFrom(rest, tokens).value.tokens == tokens + Words(rest)
    decreases |rest|
  {
    hide ValidToken, FieldKey;
    var all := tokens + Words(rest);
    if rest == "" {
      assert all == tokens;
    } else if IsSeparator(rest[0]) {
      ParseFromAccepts(rest[1..], tokens);
    } else {
      var n, w := TokenLength(rest), WordLength(rest);
      var word := rest[..w];
      PlainWord(rest);
      assert all[|tokens|] == word;
      if n < |rest| && IsTerminator(rest[n]) {
        Unprintable(word, n, tokens == []);
      } else {
        assert rest[..n] == word;
        var next := tokens + [word];
        assert next + Words(rest[n..]) == all;
        if TokenError(tokens, word).None? {
          ParseFromAccepts(rest[n..], next);
        } else if |tokens| < MAX_TOKENS && ValidToken(word, tokens == []) {
          var i :| 1 <= i < |tokens| && FieldKey(tokens[i]) == FieldKey(word);
          assert FieldKey(all[i]) == FieldKey(all[|tokens|]);
        }
      }
    }
  }

  /** A line is accepted exactly when its words are valid tokens with distinct keys, at most 16. */
  lemma ParseAccepts(input: string)
    ensures Parse(input).Ok? <==> Words(input) != [] && Acceptable(Words(input))
    ensures Parse(input).Ok? ==> Parse(input).value.tokens == Words(input)
  {
    ParseFromAccepts(input, []);
    assert [] + Words(input) == Words(input);
  }

  // ---- The line format -----------------------------------------------------

  datatype Field = Field(key: string, value: string)

  function FieldText(f: Field): string { f.key + "=" + f.value }

  function FieldsText(fields: seq<Field>): string {
    if fields == [] then "" else " " + FieldText(fields[0]) + FieldsText(fields[1..])
  }

  function Line(command: string, fields: seq<Field>): string { command + FieldsText(fields) }

  predicate Printable(s: string) { forall c <- s :: IsPrintable(c) }

  /** Printable, non-empty and without '='. */
  predicate Name(s: string) { s != "" && Printable(s) && '=' !in s }

  predicate WellFormedField(f: Field) { Name(f.key) && f.value != "" && Printable(f.value) }

  predicate WellFormedFields(fields: seq<Field>) {
    |fields| < MAX_TOKENS
    && (forall f <- fields :: WellFormedField(f))
    && (forall i, j :: 0 <= i < j < |fields| ==> fields[i].key != fields[j].key)
  }

  function FieldTokens(fields: seq<Field>): (tokens: seq<string>)
    ensures |tokens| == |fields|
    ensures forall i :: 0 <= i < |fields| ==> tokens[i] == FieldText(fields[i])
  {
    seq(|fields|, i requires 0 <= i < |fields| => FieldText(fields[i]))
  }

  function Get(fields: seq<Field>, key: string): string {
    if fields == [] then "" else if fields[0].key == key then fields[0].value else Get(fields[1..], key)
  }

  lemma {:induction false} FindInName(name: string, rest: string)
    requires '=' !in name
    ensures Find(name + "=" + rest, '=') == |name|
    ensures Find(name, '=') == |name|
  {
    var s := name + "=" + rest;
    assert s[|name|] == '=';
    assert s[..|name|] == name;
  }

  lemma FieldTextParts(f: Field)
    requires WellFormedField(f)
    ensures ValidToken(FieldText(f), false) && FieldText(f) != "" && Printable(FieldText(f))
    ensures FieldKey(FieldText(f)) == f.key && FieldValue(FieldText(f)) == f.value
  {
    FindInName(f.key, f.value);
  }

  lemma {:induction false} WordThenSpace(word: string, rest: string)
    requires Printable(word)
    requires rest == "" || IsSeparator(rest[0])
    ensures WordLength(word + rest) == |word|
  {
    if word == "" {
      assert word + rest == rest;
    } else {
      assert word[0] in word;
      forall c | c in word[1..] ensures IsPrintable(c) { assert c in word; }
      WordThenSpace(word[1..], rest);
      assert (word + rest)[1..] == word[1..] + rest;
    }
  }

  lemma WordsOfWord(word: string, rest: string)
    requires word != "" && Printable(word)
    requires rest == "" || IsSeparator(rest[0])
    ensures Words(word + rest) == [word] + Words(rest)
  {
    WordThenSpace(word, rest);
    assert word[0] in word;
    assert (word + rest)[..|word|] == word && (word + rest)[|word|..] == rest;
  }

  lemma WordsOfSpace(rest: string)
    ensures Words(" " + rest) == Words(rest)
  {
    assert (" " + rest)[1..] == rest;
  }

  lemma {:induction false} WordsOfFields(fields: seq<Field>)
    requires forall f <- fields :: WellFormedField(f)
    ensures Words(FieldsText(fields)) == FieldTokens(fields)
    ensures FieldsText(fields) == "" || IsSeparator(FieldsText(fields)[0])
  {
    if fields != [] {
      assert fields[0] in fields;
      FieldTextParts(fields[0]);
      hide FieldText, FieldKey, FieldValue, WellFormedField, Words, ValidToken;
      var text := FieldText(fields[0]);
      WordsOfFields(fields[1..]);
      var rest := FieldsText(fields[1..]);
      WordsOfWord(text, rest);
      assert FieldsText(fields) == " " + (text + rest);
      WordsOfSpace(text + rest);
      assert FieldTokens(fields) == [text] + FieldTokens(fields[1..]);
    }
  }

  lemma {:induction false} LookUpGets(fields: seq<Field>, key: string)
    requires forall f <- fields :: WellFormedField(f)
    ensures LookUp(FieldTokens(fields), key) == Get(fields, key)
  {
    if fields != [] {
      FieldTextParts(fields[0]);
      assert FieldTokens(fields)[1..] == FieldTokens(fields[1..]);
      LookUpGets(fields[1..], key);
    }
  }

  /** Parsing a formatted line gives back its command and every one of its fields. */
  lemma ParseOfLine(command: string, fields: seq<Field>)
    requires Name(command) && WellFormedFields(fields)
    ensures Parse(Line(command, fields)).Ok?
    ensures Parse(Line(command, fields)).value.Command() == command
    ensures forall key :: Parse(Line(command, fields)).value.ValueFor(key) == Get(fields, key)
  {
    var tokens := [command] + FieldTokens(fields);
    WordsOfFields(fields);
    WordsOfWord(command, FieldsText(fields));
    FindInName(command, "");
    forall i | 0 <= i < |tokens| ensures ValidToken(tokens[i], i == 0) {
      if i > 0 {
        assert fields[i - 1] in fields;
        FieldTextParts(fields[i - 1]);
      }
    }
    forall i, j | 1 <= i < j < |tokens| ensures FieldKey(tokens[i]) != FieldKey(tokens[j]) {
      FieldTextParts(fields[i - 1]);
      FieldTextParts(fields[j - 1]);
    }
    ParseAccepts(Line(command, fields));
    forall key ensures Parse(Line(command, fields)).value.ValueFor(key) == Get(fields, key) {
      LookUpGets(fields, key);
      assert tokens[1..] == FieldTokens(fields);
    }
  }
}
