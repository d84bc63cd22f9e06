/** The line parser of shared/protocol/src/text_line.cpp. */
module TextLines {
  import opened Basics

  const MAX_TOKENS := 16

  datatype TextLineError =
    | Empty
    | ContainsLineTerminator
    | InvalidCharacter
    | DuplicateKey
    | TooManyTokens

  type Parsed = Result<TextLine, TextLineError>

  predicate IsSeparator(c: char) { c == ' ' || c == '\t' }
  predicate IsTerminator(c: char) { c == '\r' || c == '\n' }
  predicate IsPrintable(c: char) { '!' <= c <= '~' }

  /** The position of the first c, or |s|. */
  function Find(s: string, c: char): (k: nat)
    ensures k <= |s|
    ensures k < |s| ==> s[k] == c
    ensures forall i :: 0 <= i < k ==> s[i] != c
  {
    if s == "" then 0 else if s[0] == c then 0 else 1 + Find(s[1..], c)
  }

  predicate ValidToken(token: string, isCommand: bool) {
    (forall c <- token :: IsPrintable(c))
    && (if isCommand then Find(token, '=') == |token|
        else 0 < Find(token, '=') && Find(token, '=') + 1 < |token|)
  }

  function FieldKey(token: string): string { token[..Find(token, '=')] }

  function FieldValue(token: string): string {
    var separator := Find(token, '=');
    if separator == |token| then token else token[separator + 1..]
  }

  datatype TextLine = TextLine(tokens: seq<string>) {
    function Command(): string {
      if tokens == [] then "" else tokens[0]
    }

    /** value_for: the value of the first field with this key, or empty. */
    function ValueFor(key: string): string {
      if |tokens| <= 1 then "" else LookUp(tokens[1..], key)
    }
  }

  function LookUp(fields: seq<string>, key: string): string {
    if fields == [] then ""
    else if FieldKey(fields[0]) == key then FieldValue(fields[0])
    else LookUp(fields[1..], key)
  }

  predicate KeyUsed(tokens: seq<string>, key: string) {
    exists i :: 1 <= i < |tokens| && FieldKey(tokens[i]) == key
  }

  /** The length of the token that s starts with: up to the next separator or terminator. */
  function TokenLength(s: string): (n: nat)
    ensures n <= |s|
    ensures n < |s| ==> IsSeparator(s[n]) || IsTerminator(s[n])
    ensures forall i :: 0 <= i < n ==> !IsSeparator(s[i]) && !IsTerminator(s[i])
  {
    if s == "" || IsSeparator(s[0]) || IsTerminator(s[0]) then 0 else 1 + TokenLength(s[1..])
  }

  /** Why the next token cannot be taken, if it cannot. */
  function TokenError(tokens: seq<string>, token: string): Option<TextLineError> {
    if |tokens| == MAX_TOKENS then Some(TooManyTokens)
    else if !ValidToken(token, tokens == []) then Some(InvalidCharacter)
    else if tokens != [] && KeyUsed(tokens, FieldKey(token)) then Some(DuplicateKey)
    else None
  }

  /** Parsing the rest of a line after the given tokens. */
  function ParseFrom(rest: string, tokens: seq<string>): (r: Parsed)
    decreases |rest|
  {
    if rest == "" then (if tokens == [] then Err(Empty) else Ok(TextLine(tokens)))
    else if IsTerminator(rest[0]) then Err(ContainsLineTerminator)
    else if IsSeparator(rest[0]) then ParseFrom(rest[1..], tokens)
    else
      var n := TokenLength(rest);
      if n < |rest| && IsTerminator(rest[n]) then Err(ContainsLineTerminator)
      else
        match TokenError(tokens, rest[..n])
        case Some(error) => Err(error)
        case None => ParseFrom(rest[n..], tokens + [rest[..n]])
  }

  function Parse(input: string): Parsed { ParseFrom(input, []) }

  // ---- The loop of the source ----------------------------------------------

  /** The scan over one token: it ends at a separator, a terminator or the end of the line. */
  method ScanToken(input: string, start: nat) returns (end: nat)
    requires start <= |input|
    ensures start <= end <= |input|
    ensures end - start == TokenLength(input[start..])
  {
    end := start;
    while end < |input| && !IsSeparator(input[end]) && !IsTerminator(input[end])
      invariant start <= end <= |input|
      invariant TokenLength(input[start..]) == end - start + TokenLength(input[end..])
    {
      assert input[end..][1..] == input[end + 1..];
      end := end + 1;
    }
  }

  method ScanKeys(tokens: seq<string>, key: string) returns (used: bool)
    ensures used <==> KeyUsed(tokens, key)
  {
    var index := 1;
    while index < |tokens|
      invariant forall i :: 1 <= i < index && i < |tokens| ==> FieldKey(tokens[i]) != key
    {
      if FieldKey(tokens[index]) == key {
        return true;
      }
      index := index + 1;
    }
    return false;
  }

  method ParseTextLine(input: string) returns (result: Parsed)
    ensures result == Parse(input)
  {
    var tokens: seq<string> := [];
    if input == "" {
      return Err(Empty);
    }
    var position := 0;
    while position < |input|
      invariant 0 <= position <= |input|
      invariant ParseFrom(input[position..], tokens) == Parse(input)
    {
      ghost var rest := input[position..];
      if IsTerminator(input[position]) {
        return Err(ContainsLineTerminator);
      }
      if IsSeparator(input[position]) {
        assert rest[1..] == input[position + 1..];
        position := position + 1;
        continue;
      }
      var end := ScanToken(input, position);
      if end < |input| && IsTerminator(input[end]) {
        return Err(ContainsLineTerminator);
      }
      var token := input[position..end];
      assert token == rest[..end - position];
      assert rest[end - position..] == input[end..];
      if |tokens| == MAX_TOKENS {
        return Err(TooManyTokens);
      }
      if !ValidToken(token, tokens == []) {
        return Err(InvalidCharacter);
      }
      if tokens != [] {
        var used := ScanKeys(tokens, FieldKey(token));
        if used {
          return Err(DuplicateKey);
        }
      }
      position := end;
      tokens := tokens + [token];
    }
    assert input[position..] == "";
    result := if tokens == [] then Err(Empty) else Ok(TextLine(tokens));
  }
}
