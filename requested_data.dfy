/** `RequestedData`: the already-parsed JSON envelope of a random-number response. */
module RequestedData {
  import opened Wrappers
  import opened Numbers

  /**
   * The envelope `{type, length, size, data, success}`. A datatype value: the constructor
   * stores its arguments as given and nothing changes them afterwards.
   */
  datatype RequestedData = RequestedData(typeName: string, length: Int32, size: Int32, data: seq<string>, success: bool)
  {
    /** The tokens of `data` that parse as an `int`, in their order; the others are dropped. */
    function DataNumbers(): (numbers: seq<Int32>)
      ensures |numbers| <= |data|
      ensures |numbers| == |data| <==> forall i :: 0 <= i < |data| ==> ParseInt32(data[i]).Some?
    {
      ParsedTokensKeepsAll(data);
      ParsedTokens(data)
    }
  }

  /** `Select(TryParse).Where(HasValue).Select(Value)` over a token list. */
  function ParsedTokens(tokens: seq<string>): (numbers: seq<Int32>)
    ensures |numbers| <= |tokens|
  {
    if tokens == [] then []
    else TokenNumbers(tokens[0]) + ParsedTokens(tokens[1..])
  }

  /** The value list a single token contributes: its value, or nothing. */
  function TokenNumbers(token: string): seq<Int32> {
    match ParseInt32(token) case Some(v) => [v] case None => []
  }

  /** The filter works token by token: splitting the list splits the result at the same place. */
  lemma {:induction false} ParsedTokensAppend(a: seq<string>, b: seq<string>)
    ensures ParsedTokens(a + b) == ParsedTokens(a) + ParsedTokens(b)
    decreases |a|
  {
    if a == [] {
      assert a + b == b;
    } else {
      assert (a + b)[1..] == a[1..] + b;
      ParsedTokensAppend(a[1..], b);
    }
  }

  /** Each token contributes its own value or nothing, in place: the result is the concatenation. */
  lemma {:induction false} ParsedTokensSplit(tokens: seq<string>, i: nat)
    requires i < |tokens|
    ensures ParsedTokens(tokens) == ParsedTokens(tokens[..i]) + TokenNumbers(tokens[i]) + ParsedTokens(tokens[i + 1..])
  {
    assert tokens == tokens[..i] + ([tokens[i]] + tokens[i + 1..]);
    ParsedTokensAppend(tokens[..i], [tokens[i]] + tokens[i + 1..]);
    ParsedTokensAppend([tokens[i]], tokens[i + 1..]);
    assert ([tokens[i]])[1..] == [];
  }

  /** Nothing is dropped exactly when every token parses. */
  lemma {:induction false} ParsedTokensKeepsAll(tokens: seq<string>)
    ensures |ParsedTokens(tokens)| == |tokens| <==> forall i :: 0 <= i < |tokens| ==> ParseInt32(tokens[i]).Some?
    decreases |tokens|
  {
    if tokens != [] {
      ParsedTokensKeepsAll(tokens[1..]);
      assert forall i :: 1 <= i < |tokens| ==> tokens[i] == tokens[1..][i - 1];
    }
  }

  /** Every number kept is the value of some token. */
  lemma {:induction false} ParsedTokensSound(tokens: seq<string>, k: nat)
    requires k < |ParsedTokens(tokens)|
    ensures exists i :: 0 <= i < |tokens| && ParseInt32(tokens[i]) == Some(ParsedTokens(tokens)[k])
    decreases |tokens|
  {
    var head := TokenNumbers(tokens[0]);
    assert ParsedTokens(tokens) == head + ParsedTokens(tokens[1..]);
    if k >= |head| {
      ParsedTokensSound(tokens[1..], k - |head|);
      var i :| 0 <= i < |tokens[1..]| && ParseInt32(tokens[1..][i]) == Some(ParsedTokens(tokens[1..])[k - |head|]);
      assert tokens[i + 1] == tokens[1..][i];
    } else {
      assert ParseInt32(tokens[0]) == Some(ParsedTokens(tokens)[k]);
    }
  }

  /** The sample response `["1","2","3"]` yields `[1, 2, 3]`. */
  lemma SampleDataNumbers()
    ensures RequestedData("uint8", 3, 0, ["1", "2", "3"], true).DataNumbers() == [1, 2, 3]
  {
    ParseRenderedInt32(1);
    ParseRenderedInt32(2);
    ParseRenderedInt32(3);
    assert ["1", "2", "3"][1..] == ["2", "3"];
    assert ["2", "3"][1..] == ["3"];
  }

  /** A non-numeric `hex16` token such as `ab` is dropped without error; a digit-only one such as `12` reads as decimal 12. */
  lemma HexTokens()
    ensures ParsedTokens(["ab", "12"]) == [12]
  {
    ParseRejectsNonDigit("ab", 0);
    ParseRenderedInt32(12);
    assert IntToDecimal(12) == "12";
    assert ["ab", "12"][1..] == ["12"];
  }
}
