/**
 * `DirtyClient.cs`: the accessors for the fixed plugin endpoints of qrng.anu.edu.au and the
 * permutation generator. The network calls are left out: what a request returns is a parameter.
 */
module DirtyClient {
  import opened Wrappers
  import opened Numbers
  import opened Strings
  import opened Shared
  import opened Chunking

  datatype BlockType = BinaryBlock | HexadecimalBlock | AlphanumericBlock

  datatype LiveStreamType = Color | Binary | Hexadecimal

  datatype SensingRandomnessType = BWPixels | ScatterPlot | WhiteNoise | BernoulliNoise

  /** Every plugin endpoint, named by the enumeration value that selects it. */
  datatype PluginRequest =
    | LiveStream(liveStreamType: LiveStreamType)
    | Block(blockType: BlockType)
    | SensingRandomness(sensingRandomnessType: SensingRandomnessType)

  const PluginBase := "https://qrng.anu.edu.au/wp-content/plugins/colours-plugin/"

  /** The script each enumeration value is fetched from. */
  function PluginFile(request: PluginRequest): string {
    match request
    case LiveStream(Color) => "get_one_colour.php"
    case LiveStream(Hexadecimal) => "get_one_hex.php"
    case LiveStream(Binary) => "get_one_binary.php"
    case SensingRandomness(BWPixels) => "get_image_bw.php"
    case SensingRandomness(ScatterPlot) => "get_image_scatter.php"
    case SensingRandomness(WhiteNoise) => "get_audio_whiteNoise.php"
    case SensingRandomness(BernoulliNoise) => "get_audio_bernoulliNoise.php"
    case Block(BinaryBlock) => "get_block_binary.php"
    case Block(HexadecimalBlock) => "get_block_hex.php"
    case Block(AlphanumericBlock) => "get_block_alpha.php"
  }

  /** The URL `RequestLiveStreamAsync`, `RequestBlockAsync` and `RequestSensingRandomnessAsync` fetch. */
  function PluginUrl(request: PluginRequest): (url: string)
    ensures PluginBase <= url && url[|PluginBase|..] == PluginFile(request)
  {
    PluginBase + PluginFile(request)
  }

  /** Different enumeration values are fetched from different URLs. */
  lemma PluginUrlInjective(a: PluginRequest, b: PluginRequest)
    requires PluginUrl(a) == PluginUrl(b)
    ensures a == b
  {
    assert PluginFile(a) == PluginUrl(a)[|PluginBase|..] == PluginUrl(b)[|PluginBase|..] == PluginFile(b);
  }

  // Media payloads

  /**
   * The strip step of `DecodeAndSaveFile`: `Remove(0, IndexOf(',') + 1)` drops the header of a
   * `data:` URL (section 3 of RFC 2397) up to and including the first comma; without a comma
   * `IndexOf` gives -1 and nothing is removed.
   */
  function StripPayload(text: string): (payload: string)
    ensures ',' !in text ==> payload == text
    ensures ',' in text ==> |payload| < |text|
    ensures ',' in text ==> var header := text[..|text| - |payload| - 1];
                            ',' !in header && text == header + "," + payload
  {
    text[IndexOf(text, ',') + 1..]
  }

  /** Stripping a `data:` URL whose header has no comma gives back exactly its data. */
  lemma StripDataUrl(header: string, data: string)
    requires ',' !in header
    ensures StripPayload(header + "," + data) == data
  {
    IndexOfAfter(header, "," + data, ',');
    assert header + "," + data == header + ("," + data);
  }

  /** The sample `data:image/png;base64,AAAA` strips to `AAAA`. */
  lemma StripSample()
    ensures StripPayload("data:image/png;base64,AAAA") == "AAAA"
  {
    var header := "data:image/png;base64";
    assert ',' !in header;
    assert header + "," + "AAAA" == "data:image/png;base64,AAAA";
    StripDataUrl(header, "AAAA");
  }

  /** The directory separators of `Path` on Windows: `/` and `\`. */
  predicate IsDirectorySeparator(c: char) {
    c == '/' || c == '\\'
  }

  /** No dot and no directory separator follows position `i`. */
  predicate PlainAfter(path: string, i: int)
    requires 0 <= i
  {
    forall k :: i < k < |path| ==> path[k] != '.' && !IsDirectorySeparator(path[k])
  }

  /** The last `.` after the last directory separator, found by scanning back from the end; -1 if none. */
  function LastDotIndex(path: string): (i: int)
    ensures -1 <= i < |path|
    ensures 0 <= i ==> path[i] == '.' && PlainAfter(path, i)
    ensures i == -1 ==> forall k :: 0 <= k < |path| && path[k] == '.' ==>
                          exists m :: k < m < |path| && IsDirectorySeparator(path[m])
    decreases |path|
  {
    if path == [] then -1
    else if path[|path| - 1] == '.' then |path| - 1
    else if IsDirectorySeparator(path[|path| - 1]) then -1
    else LastDotIndex(path[..|path| - 1])
  }

  /** A dot with no dot and no separator after it is the one the backward scan finds. */
  lemma LastDotIsThatDot(path: string, i: int)
    requires 0 <= i < |path| && path[i] == '.' && PlainAfter(path, i)
    ensures LastDotIndex(path) == i
  {
  }

  /** The backward scan stops at a dot followed by something, exactly when the path has such a last dot. */
  lemma LastDotCharacterised(path: string)
    ensures 0 <= LastDotIndex(path) < |path| - 1
            <==> exists i :: 0 <= i < |path| - 1 && path[i] == '.' && PlainAfter(path, i)
  {
    forall i | 0 <= i < |path| - 1 && path[i] == '.' && PlainAfter(path, i)
      ensures LastDotIndex(path) == i
    {
      LastDotIsThatDot(path, i);
    }
  }

  /**
   * `Path.HasExtension`: the last `.` that no separator follows is not the final character, that is,
   * some dot is followed by at least one character and by no dot and no separator.
   */
  predicate HasExtension(path: string)
    ensures HasExtension(path) <==> exists i :: 0 <= i < |path| - 1 && path[i] == '.' && PlainAfter(path, i)
  {
    LastDotCharacterised(path);
    var i := LastDotIndex(path);
    0 <= i && i != |path| - 1
  }

  /** A default extension: a dot and at least one character that is neither a dot nor a separator. */
  predicate IsExtension(extension: string) {
    |extension| >= 2 && extension[0] == '.'
    && forall k :: 1 <= k < |extension| ==> extension[k] != '.' && !IsDirectorySeparator(extension[k])
  }

  /** Characters that hold no dot and no separator do not move the last dot. */
  lemma {:induction false} LastDotIgnoresPlainSuffix(a: string, b: string)
    requires forall k :: 0 <= k < |b| ==> b[k] != '.' && !IsDirectorySeparator(b[k])
    ensures LastDotIndex(a + b) == LastDotIndex(a)
    decreases |b|
  {
    if b == [] {
      assert a + b == a;
    } else {
      var ab := a + b;
      assert ab[|ab| - 1] == b[|b| - 1];
      assert ab[..|ab| - 1] == a + b[..|b| - 1];
      LastDotIgnoresPlainSuffix(a, b[..|b| - 1]);
    }
  }

  /** A name with an extension appended has an extension. */
  lemma ExtensionAppended(name: string, extension: string)
    requires IsExtension(extension)
    ensures HasExtension(name + extension)
  {
    var withDot := name + ".";
    assert LastDotIndex(withDot) == |name|;
    assert name + extension == withDot + extension[1..];
    LastDotIgnoresPlainSuffix(withDot, extension[1..]);
  }

  /** `if (Path.HasExtension(fileName) == false) fileName += extension;` */
  function WithDefaultExtension(fileName: string, extension: string): (path: string)
    requires IsExtension(extension)
    ensures HasExtension(path)
    ensures fileName <= path
    ensures HasExtension(fileName) <==> path == fileName
    ensures !HasExtension(fileName) ==> path == fileName + extension
  {
    if HasExtension(fileName) then fileName
    else
      ExtensionAppended(fileName, extension);
      fileName + extension
  }

  /** `.png` for the two images, `.wav` for the two noise recordings. */
  function DefaultExtension(kind: SensingRandomnessType): (extension: string)
    ensures IsExtension(extension)
  {
    match kind
    case BWPixels => ".png"
    case ScatterPlot => ".png"
    case WhiteNoise => ".wav"
    case BernoulliNoise => ".wav"
  }

  /** What one of the four media methods does with its arguments and the downloaded body. */
  datatype MediaDownload = MediaDownload(url: string, fileName: string, base64Text: string)

  /**
   * `GetBWPixelsImageAsync`, `GetScatterPlotImageAsync`, `GetWhiteNoiseAsync` and
   * `GetBernoulliNoiseAsync`: fetch the kind's script, give the file name its default extension
   * when it has none, and strip the body down to the Base64 text that is decoded and written.
   */
  function GetMedia(kind: SensingRandomnessType, fileName: string, body: string): (r: MediaDownload)
    ensures r.url == PluginUrl(SensingRandomness(kind))
    ensures HasExtension(r.fileName)
    ensures HasExtension(fileName) ==> r.fileName == fileName
    ensures !HasExtension(fileName) ==> r.fileName == fileName + DefaultExtension(kind)
    ensures forall header, data :: body == header + "," + data && ',' !in header ==> r.base64Text == data
  {
    forall header, data | body == header + "," + data && ',' !in header
      ensures StripPayload(body) == data
    {
      StripDataUrl(header, data);
    }
    MediaDownload(PluginUrl(SensingRandomness(kind)), WithDefaultExtension(fileName, DefaultExtension(kind)), StripPayload(body))
  }

  // Permutations

  const MaxPermutationCount := 50
  const MaxObjectCount := 200

  /** The range checks made before any request is sent. */
  function ValidatePermutationCounts(permutationCount: Int32, objectCount: Int32): (outcome: Outcome<Error>)
    ensures outcome.Pass? <==> 1 <= permutationCount <= MaxPermutationCount && 1 <= objectCount <= MaxObjectCount
  {
    if permutationCount < 1 || permutationCount > 50 then Fail(ArgumentException("Invalid permutation count!"))
    else if objectCount < 1 || objectCount > 200 then Fail(ArgumentException("Invalid object count!"))
    else Pass
  }

  /** The form fields posted to the permutation generator. */
  function PermutationForm(permutationCount: Int32, objectCount: Int32): (form: map<string, string>)
    ensures form.Keys == {"set_num", "max_num", "action", "permutation_nonce_field"}
    ensures ParseInt32(form["set_num"]) == Some(permutationCount)
    ensures ParseInt32(form["max_num"]) == Some(objectCount)
    ensures form["action"] == "permutation_action" && form["permutation_nonce_field"] == "9cbbdb661e"
  {
    ParseRenderedInt32(permutationCount);
    ParseRenderedInt32(objectCount);
    map["set_num" := IntToDecimal(permutationCount), "max_num" := IntToDecimal(objectCount),
        "action" := "permutation_action", "permutation_nonce_field" := "9cbbdb661e"]
  }

  /** The wrapper text in front of the nested array of a permutation response. */
  const ResponsePrefix := "\"{\\\"type\\\":\\\"success\\\",\\\"output\\\":[["

  /** The wrapper text after it. */
  const ResponseSuffix := "]]}\""

  /** The four `Replace(..., "")` calls: the prefix, the suffix, then every `[` and every `]`. */
  function CleanPermutationResponse(data: string): (cleaned: string)
    ensures '[' !in cleaned && ']' !in cleaned
    ensures !Occurs(cleaned, ResponsePrefix) && !Occurs(cleaned, ResponseSuffix)
    ensures |cleaned| <= |data|
  {
    var withoutPrefix := RemoveAll(data, ResponsePrefix);
    var withoutSuffix := RemoveAll(withoutPrefix, ResponseSuffix);
    var withoutOpen := RemoveAll(withoutSuffix, "[");
    RemoveAllChar(withoutSuffix, '[');
    RemoveAllChar(withoutOpen, ']');
    RemoveAllAddsNothing(withoutOpen, "]", '[');
    var cleaned := RemoveAll(withoutOpen, "]");
    NoOccurrenceWithout(cleaned, ResponsePrefix, '[');
    NoOccurrenceWithout(cleaned, ResponseSuffix, ']');
    cleaned
  }

  /**
   * The `for` loop of `GetRandomPermutations`: a new list is opened whenever the position is a
   * multiple of `objectCount`, and the character code at each position is added to the current
   * list; reading past the end of the text throws `IndexOutOfRangeException`.
   */
  method ChunkCharacterCodes(data: string, permutationCount: nat, objectCount: nat) returns (r: Result<seq<seq<int>>, Error>)
    requires objectCount > 0
    ensures r == if permutationCount * objectCount <= |data|
                 then Success(Chunk(Codes(data[..permutationCount * objectCount]), objectCount))
                 else Failure(IndexOutOfRange)
  {
    var permutations: seq<seq<int>> := [];
    var permutationCurrentCount := -1;
    var numberCount := 0;
    while numberCount < objectCount * permutationCount
      invariant 0 <= numberCount <= |data|
      invariant numberCount <= objectCount * permutationCount
      invariant permutations == Chunk(Codes(data[..numberCount]), objectCount)
      invariant permutationCurrentCount == |permutations| - 1
    {
      ghost var codes := Codes(data[..numberCount]);
      if numberCount % objectCount == 0 {
        permutationCurrentCount := permutationCurrentCount + 1;
        permutations := permutations + [[]];
      }
      if numberCount >= |data| {
        return Failure(IndexOutOfRange);
      }
      ChunkAppendToLast(codes, data[numberCount] as int, objectCount, permutations);
      permutations := permutations[permutationCurrentCount := permutations[permutationCurrentCount] + [data[numberCount] as int]];
      CodesSnoc(data, numberCount);
      numberCount := numberCount + 1;
    }
    return Success(permutations);
  }

  /**
   * What `GetRandomPermutations` returns for the server's reply `response`, as the code is written:
   * counts out of range fail before anything is read, and with valid counts the call fails exactly
   * when the cleaned text is too short, by reading past its end.
   */
  function PermutationsAsWritten(permutationCount: Int32, objectCount: Int32, response: string)
    : (r: Result<seq<seq<int>>, Error>)
    ensures !(1 <= permutationCount <= MaxPermutationCount && 1 <= objectCount <= MaxObjectCount)
            ==> r.Failure? && r.error.ArgumentException?
    ensures 1 <= permutationCount <= MaxPermutationCount && 1 <= objectCount <= MaxObjectCount
            ==> (r.Success? <==> permutationCount * objectCount <= |CleanPermutationResponse(response)|)
                && (r.Failure? ==> r.error == IndexOutOfRange)
  {
    match ValidatePermutationCounts(permutationCount, objectCount)
    case Fail(e) => Failure(e)
    case Pass =>
      var cleaned := CleanPermutationResponse(response);
      if permutationCount * objectCount <= |cleaned|
      then Success(Chunk(Codes(cleaned[..permutationCount * objectCount]), objectCount))
      else Failure(IndexOutOfRange)
  }

  /** `GetRandomPermutations(permutationCount, objectCount)`, given the body the POST returns. */
  method GetRandomPermutations(permutationCount: Int32, objectCount: Int32, response: string)
    returns (r: Result<seq<seq<int>>, Error>)
    ensures r == PermutationsAsWritten(permutationCount, objectCount, response)
  {
    if permutationCount < 1 || permutationCount > 50 {
      return Failure(ArgumentException("Invalid permutation count!"));
    }
    if objectCount < 1 || objectCount > 200 {
      return Failure(ArgumentException("Invalid object count!"));
    }
    var data := CleanPermutationResponse(response);
    r := ChunkCharacterCodes(data, permutationCount, objectCount);
  }

  /**
   * A successful result has `permutationCount` lists of `objectCount` elements, element `j` of
   * list `i` being the code of character `i * objectCount + j` of the cleaned text.
   */
  lemma PermutationsShape(permutationCount: Int32, objectCount: Int32, response: string, i: nat, j: nat)
    requires PermutationsAsWritten(permutationCount, objectCount, response).Success?
    requires i < permutationCount && j < objectCount
    ensures var permutations := PermutationsAsWritten(permutationCount, objectCount, response).value;
            |permutations| == permutationCount && |permutations[i]| == objectCount
    ensures i * objectCount + j < |CleanPermutationResponse(response)|
    ensures PermutationsAsWritten(permutationCount, objectCount, response).value[i][j]
            == CleanPermutationResponse(response)[i * objectCount + j] as int
  {
    CodesAt(CleanPermutationResponse(response), permutationCount, objectCount, i, j);
  }

  /** Element `j` of list `i` of the chunked codes is the code at `i * objectCount + j`. */
  lemma CodesAt(cleaned: string, permutationCount: nat, objectCount: nat, i: nat, j: nat)
    requires permutationCount * objectCount <= |cleaned|
    requires i < permutationCount && j < objectCount
    ensures var rows := Chunk(Codes(cleaned[..permutationCount * objectCount]), objectCount);
            |rows| == permutationCount && |rows[i]| == objectCount
            && i * objectCount + j < |cleaned| && rows[i][j] == cleaned[i * objectCount + j] as int
  {
    var codes := Codes(cleaned[..permutationCount * objectCount]);
    ChunkAt(codes, objectCount, permutationCount, i, j);
  }

  // The reply as the server writes it, and the parse the method evidently intends

  /** `ToString()` of each number. */
  function Decimals(numbers: seq<int>): (texts: seq<string>)
    ensures |texts| == |numbers| && forall k :: 0 <= k < |numbers| ==> texts[k] == IntToDecimal(numbers[k])
  {
    seq(|numbers|, k requires 0 <= k < |numbers| => IntToDecimal(numbers[k]))
  }

  /** The rendering of a number holds only digits and a leading minus sign. */
  lemma DecimalsWithout(numbers: seq<int>, c: char)
    requires !IsDigit(c) && c != '-'
    ensures forall k :: 0 <= k < |numbers| ==> c !in Decimals(numbers)[k]
  {
  }

  /** The nested array the server puts between the wrapper texts: the lists joined by `],[`. */
  function RowsText(permutations: seq<seq<int>>): string
    requires |permutations| > 0 && forall i :: 0 <= i < |permutations| ==> |permutations[i]| > 0
  {
    var row := Join(Decimals(permutations[0]), ',');
    if |permutations| == 1 then row else row + "],[" + RowsText(permutations[1..])
  }

  /** The full reply for `permutations`. */
  function PermutationResponse(permutations: seq<seq<int>>): string
    requires |permutations| > 0 && forall i :: 0 <= i < |permutations| ==> |permutations[i]| > 0
  {
    ResponsePrefix + RowsText(permutations) + ResponseSuffix
  }

  /** The nested array holds no brace. */
  lemma {:induction false} RowsTextWithoutBraces(permutations: seq<seq<int>>)
    requires |permutations| > 0 && forall i :: 0 <= i < |permutations| ==> |permutations[i]| > 0
    ensures '{' !in RowsText(permutations) && '}' !in RowsText(permutations)
    decreases |permutations|
  {
    DecimalsWithout(permutations[0], '{');
    DecimalsWithout(permutations[0], '}');
    JoinWithout(Decimals(permutations[0]), ',', '{');
    JoinWithout(Decimals(permutations[0]), ',', '}');
    if |permutations| > 1 {
      RowsTextWithoutBraces(permutations[1..]);
    }
  }

  /** Cleaning a wrapped text that holds no brace drops the two wrappers and then the brackets. */
  lemma CleanWrapped(text: string)
    requires '{' !in text && '}' !in text
    ensures CleanPermutationResponse(ResponsePrefix + text + ResponseSuffix)
            == RemoveAll(RemoveAll(text, "["), "]")
  {
    assert ResponsePrefix[1] == '{' && '{' !in ResponseSuffix && ResponseSuffix[2] == '}';
    DropWrappers(ResponsePrefix, text, ResponseSuffix, '{', '}');
  }

  /** Removing the prefix and then the suffix from a wrapped text gives the text back. */
  lemma DropWrappers(prefix: string, text: string, suffix: string, open: char, close: char)
    requires open in prefix && open !in text && open !in suffix
    requires close in suffix && close !in text
    ensures RemoveAll(RemoveAll(prefix + text + suffix, prefix), suffix) == text
  {
    assert prefix + text + suffix == prefix + (text + suffix);
    RemoveAllLeading(prefix, text + suffix, open);
    RemoveAllTrailing(text, suffix, close);
  }

  /** Dropping the brackets of the nested array leaves every number, comma-separated, in order. */
  lemma {:induction false} RowsTextCleaned(permutations: seq<seq<int>>)
    requires |permutations| > 0 && forall i :: 0 <= i < |permutations| ==> |permutations[i]| > 0
    ensures RemoveAll(RemoveAll(RowsText(permutations), "["), "]") == Join(Decimals(Flatten(permutations)), ',')
    decreases |permutations|
  {
    var first := Decimals(permutations[0]);
    var row := Join(first, ',');
    DecimalsWithout(permutations[0], '[');
    DecimalsWithout(permutations[0], ']');
    JoinWithout(first, ',', '[');
    JoinWithout(first, ',', ']');
    if |permutations| == 1 {
      CleanPlainRow(row);
      assert Flatten(permutations) == permutations[0] + Flatten([]);
      assert Flatten(permutations) == permutations[0];
    } else {
      var rest := permutations[1..];
      CleanRowStep(row, RowsText(rest));
      RowsTextCleaned(rest);
      JoinedDecimalsStep(permutations);
    }
  }

  /** The rendered numbers of several lists are those of the first, a comma, and those of the rest. */
  lemma JoinedDecimalsStep(permutations: seq<seq<int>>)
    requires |permutations| > 1 && forall i :: 0 <= i < |permutations| ==> |permutations[i]| > 0
    ensures Join(Decimals(Flatten(permutations)), ',')
            == Join(Decimals(permutations[0]), ',') + "," + Join(Decimals(Flatten(permutations[1..])), ',')
  {
    var rest := permutations[1..];
    assert Flatten(permutations) == permutations[0] + Flatten(rest);
    assert Flatten(rest) == rest[0] + Flatten(rest[1..]);
    assert Decimals(Flatten(permutations)) == Decimals(permutations[0]) + Decimals(Flatten(rest));
    JoinAppend(Decimals(permutations[0]), Decimals(Flatten(rest)), ',');
  }

  /** A text without brackets is left as it is by the bracket removals. */
  lemma CleanPlainRow(row: string)
    requires '[' !in row && ']' !in row
    ensures RemoveAll(RemoveAll(row, "["), "]") == row
  {
    NoOccurrenceWithout(row, "[", '[');
    RemoveAllAbsent(row, "[");
    NoOccurrenceWithout(row, "]", ']');
    RemoveAllAbsent(row, "]");
  }

  /** The bracket removals turn the `],[` after a list without brackets into a comma. */
  lemma CleanRowStep(row: string, tail: string)
    requires '[' !in row && ']' !in row
    ensures RemoveAll(RemoveAll(row + "],[" + tail, "["), "]") == row + "," + RemoveAll(RemoveAll(tail, "["), "]")
  {
    var openDropped := RemoveAll(tail, "[");
    assert RemoveAll(row + "],[" + tail, "[") == row + "]," + openDropped by {
      assert row + "],[" + tail == (row + "],") + "[" + tail;
      assert '[' !in row + "],";
      RemoveAllAfter(row + "],", "[", tail);
    }
    assert RemoveAll(row + "]," + openDropped, "]") == row + RemoveAll("," + openDropped, "]") by {
      assert row + "]," + openDropped == row + "]" + ("," + openDropped);
      RemoveAllAfter(row, "]", "," + openDropped);
    }
    RemoveAllKeepsFirst(',', openDropped, "]");
    assert row + ("," + RemoveAll(openDropped, "]")) == row + "," + RemoveAll(openDropped, "]");
  }

  /** Every token read with `int.TryParse`, or nothing if one of them does not parse. */
  function ParseAll(tokens: seq<string>): (r: Option<seq<int>>)
    ensures r.Some? ==> |r.value| == |tokens|
                        && forall k :: 0 <= k < |tokens| ==> ParseInt32(tokens[k]) == Some(r.value[k])
    ensures r.None? ==> exists k :: 0 <= k < |tokens| && ParseInt32(tokens[k]).None?
  {
    if tokens == [] then Some([])
    else match (ParseInt32(tokens[0]), ParseAll(tokens[1..]))
      case (Some(n), Some(ns)) => Some([n as int] + ns)
      case (None, _) => None
      case (_, None) => None
  }

  /** Reading back rendered numbers gives the numbers. */
  lemma ParseAllDecimals(numbers: seq<int>)
    requires forall k :: 0 <= k < |numbers| ==> MinInt32 <= numbers[k] <= MaxInt32
    ensures ParseAll(Decimals(numbers)) == Some(numbers)
  {
    var texts := Decimals(numbers);
    forall k | 0 <= k < |numbers|
      ensures ParseInt32(texts[k]) == Some(numbers[k])
    {
      ParseRenderedInt32(numbers[k]);
    }
    var r := ParseAll(texts);
    assert r.Some?;
    assert r.value == numbers;
  }

  /**
   * The evidently intended reading of the cleaned text: split it at the commas, parse the first
   * `permutationCount * objectCount` tokens as numbers and cut them into lists of `objectCount`.
   */
  function ParsePermutations(cleaned: string, permutationCount: nat, objectCount: nat): (r: Result<seq<seq<int>>, Error>)
    requires objectCount > 0
    ensures r.Success? ==> |r.value| == permutationCount
                           && forall i :: 0 <= i < permutationCount ==> |r.value[i]| == objectCount
    ensures r.Failure? ==> r.error == IndexOutOfRange || r.error == FormatException
  {
    var tokens := Split(cleaned, ',');
    var n := permutationCount * objectCount;
    if |tokens| < n then Failure(IndexOutOfRange)
    else match ParseAll(tokens[..n])
      case None => Failure(FormatException)
      case Some(numbers) =>
        ChunkShape(numbers, objectCount, permutationCount);
        Success(Chunk(numbers, objectCount))
  }

  /** `GetRandomPermutations` with the intended parse in place of the character codes. */
  function PermutationsCorrected(permutationCount: Int32, objectCount: Int32, response: string)
    : (r: Result<seq<seq<int>>, Error>)
    ensures r.Success? <==> ValidatePermutationCounts(permutationCount, objectCount).Pass?
                            && ParsePermutations(CleanPermutationResponse(response), permutationCount, objectCount).Success?
    ensures r.Success? ==> |r.value| == permutationCount
                           && forall i :: 0 <= i < permutationCount ==> |r.value[i]| == objectCount
  {
    match ValidatePermutationCounts(permutationCount, objectCount)
    case Fail(e) => Failure(e)
    case Pass => ParsePermutations(CleanPermutationResponse(response), permutationCount, objectCount)
  }

  /** The intended reading gives back the permutations the server wrote, in order. */
  lemma PermutationsRoundTrip(permutations: seq<seq<int>>, objectCount: Int32)
    requires 1 <= |permutations| <= MaxPermutationCount && 1 <= objectCount <= MaxObjectCount
    requires forall i :: 0 <= i < |permutations| ==> |permutations[i]| == objectCount
    requires forall i, j :: 0 <= i < |permutations| && 0 <= j < objectCount ==> MinInt32 <= permutations[i][j] <= MaxInt32
    ensures PermutationsCorrected(|permutations|, objectCount, PermutationResponse(permutations)) == Success(permutations)
  {
    var text := RowsText(permutations);
    RowsTextWithoutBraces(permutations);
    CleanWrapped(text);
    RowsTextCleaned(permutations);
    var numbers := Flatten(permutations);
    FlattenLength(permutations, objectCount);
    var texts := Decimals(numbers);
    DecimalsWithout(numbers, ',');
    SplitJoin(texts, ',');
    assert texts[..|permutations| * objectCount] == texts;
    FlattenBounded(permutations, MinInt32, MaxInt32);
    ParseAllDecimals(numbers);
    ChunkFlatten(permutations, objectCount);
  }

  /**
   * For one permutation of two objects the server replies with the nested array `[[1,2]]`; the
   * method as written returns the codes of `1` and `,`, where the parse it evidently intends
   * returns the permutation itself.
   */
  lemma CharacterCodesNotNumbers()
    ensures PermutationResponse([[1, 2]]) == ResponsePrefix + "1,2" + ResponseSuffix
    ensures PermutationsAsWritten(1, 2, PermutationResponse([[1, 2]])) == Success([[49, 44]])
    ensures PermutationsCorrected(1, 2, PermutationResponse([[1, 2]])) == Success([[1, 2]])
  {
    SampleResponse();
    var cleaned := CleanPermutationResponse(PermutationResponse([[1, 2]]));
    assert Codes(cleaned[..2]) == [49, 44];
    assert Chunk([49, 44], 2) == [[49, 44]];
    PermutationsRoundTrip([[1, 2]], 2);
  }

  /** The reply for one permutation `1, 2`, and what the cleanup leaves of it. */
  lemma SampleResponse()
    ensures PermutationResponse([[1, 2]]) == ResponsePrefix + "1,2" + ResponseSuffix
    ensures CleanPermutationResponse(PermutationResponse([[1, 2]])) == "1,2"
  {
    assert IntToDecimal(1) == "1" && IntToDecimal(2) == "2";
    assert Decimals([1, 2]) == ["1", "2"];
    assert Join(["1", "2"], ',') == "1" + [','] + Join(["2"], ',') == "1,2";
    assert RowsText([[1, 2]]) == "1,2";
    CleanWrapped("1,2");
    CleanPlainRow("1,2");
  }
}
