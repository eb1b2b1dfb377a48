/**
 * The request URL of the random-number API: `<endpoint>?length=L&type=T`, with `&size=S`
 * added for `hex16` only. Both revisions of the client build it the same way.
 */
module QueryString {
  import opened Wrappers
  import opened Numbers
  import opened Strings
  import opened Shared

  /** The query parameters a request URL carries. */
  datatype QueryParams = QueryParams(dataType: RequestedDataType, length: Int32, size: Option<Int32>)

  /** The three-way switch of `GetRequestUrl` over the data type. */
  function RequestUrl(endpoint: string, dataType: RequestedDataType, length: Int32, size: Int32): (url: string)
    ensures endpoint + "?length=" + IntToDecimal(length) + "&type=" + TypeName(dataType) <= url
  {
    match dataType
    case Uint8 => endpoint + "?length=" + IntToDecimal(length) + "&type=" + TypeName(dataType)
    case Uint16 => endpoint + "?length=" + IntToDecimal(length) + "&type=" + TypeName(dataType)
    case Hex16 =>
      endpoint + "?length=" + IntToDecimal(length) + "&type=" + TypeName(dataType) + "&size=" + IntToDecimal(size)
  }

  /** The parameters a request carries: the size only for `hex16`. */
  function Expected(dataType: RequestedDataType, length: Int32, size: Int32): QueryParams {
    QueryParams(dataType, length, if dataType == Hex16 then Some(size) else None)
  }

  /** Reads back the `length`, `type` and optional `size` parameters of a URL for `endpoint`. */
  function ParseRequestUrl(endpoint: string, url: string): Option<QueryParams> {
    var head := endpoint + "?length=";
    if !(head <= url) then None else ParseLengthAndRest(url[|head|..])
  }

  /** Reads `L&type=...`: the length up to the first `&`, then the type and size. */
  function ParseLengthAndRest(rest: string): Option<QueryParams> {
    var amp := IndexOf(rest, '&');
    if amp < 0 then None
    else
      match ParseInt32(rest[..amp])
      case None => None
      case Some(length) =>
        var params := rest[amp + 1..];
        if "type=" <= params then ParseTypeAndSize(length, params[5..]) else None
  }

  /** Reads `T` or `T&size=S`. */
  function ParseTypeAndSize(length: Int32, typed: string): Option<QueryParams> {
    var amp := IndexOf(typed, '&');
    var name := if amp < 0 then typed else typed[..amp];
    match TypeOfName(name)
    case None => None
    case Some(t) =>
      if amp < 0 then Some(QueryParams(t, length, None))
      else
        var sized := typed[amp + 1..];
        if !("size=" <= sized) then None
        else
          match ParseInt32(sized[5..])
          case None => None
          case Some(size) => Some(QueryParams(t, length, Some(size)))
  }

  /** What follows `&type=` in a request URL. */
  function TypeAndSizeText(dataType: RequestedDataType, size: Int32): string {
    if dataType == Hex16 then TypeName(dataType) + "&size=" + IntToDecimal(size) else TypeName(dataType)
  }

  /** `hex16&size=S` reads back as `hex16` with size `S`. */
  lemma Hex16TypeAndSize(length: Int32, size: Int32)
    ensures ParseTypeAndSize(length, "hex16" + ("&size=" + IntToDecimal(size))) == Some(QueryParams(Hex16, length, Some(size)))
  {
    ParseRenderedInt32(size);
    SizedTypeReadBack(length, IntToDecimal(size), size);
  }

  /** `hex16&size=` followed by a text that parses as `size` reads back as `hex16` with that size. */
  lemma SizedTypeReadBack(length: Int32, sizeText: string, size: Int32)
    requires ParseInt32(sizeText) == Some(size)
    ensures ParseTypeAndSize(length, "hex16" + ("&size=" + sizeText)) == Some(QueryParams(Hex16, length, Some(size)))
  {
    SizedText(sizeText);
    SizedParts(length, "hex16" + ("&size=" + sizeText), sizeText, size);
  }

  /** Where `hex16&size=S` is cut by its first `&`. */
  lemma SizedText(sizeText: string)
    ensures IndexOf("hex16" + ("&size=" + sizeText), '&') == 5
    ensures ("hex16" + ("&size=" + sizeText))[..5] == "hex16"
    ensures ("hex16" + ("&size=" + sizeText))[6..] == "size=" + sizeText
  {
    var tail := "&size=" + sizeText;
    IndexOfAfter("hex16", tail, '&');
    assert ("hex16" + tail)[6..] == tail[1..];
    assert tail[1..] == "size=" + sizeText;
  }

  /** A type text cut at its first `&` into `hex16` and `size=` with a parsable size. */
  lemma SizedParts(length: Int32, typed: string, sizeText: string, size: Int32)
    requires IndexOf(typed, '&') == 5 && typed[..5] == "hex16"
    requires typed[6..] == "size=" + sizeText && ParseInt32(sizeText) == Some(size)
    ensures ParseTypeAndSize(length, typed) == Some(QueryParams(Hex16, length, Some(size)))
  {
    assert TypeOfName("hex16") == Some(Hex16);
    assert "size=" <= typed[6..] && typed[6..][5..] == sizeText;
  }

  /** The rendered type name, with or without the size parameter, reads back. */
  lemma {:induction false} TypeAndSizeRoundTrip(dataType: RequestedDataType, length: Int32, size: Int32)
    ensures ParseTypeAndSize(length, TypeAndSizeText(dataType, size)) == Some(Expected(dataType, length, size))
  {
    match dataType
    case Hex16 =>
      assert TypeAndSizeText(dataType, size) == "hex16" + ("&size=" + IntToDecimal(size));
      Hex16TypeAndSize(length, size);
    case Uint8 =>
      assert '&' !in "uint8";
    case Uint16 =>
      assert '&' !in "uint16";
  }

  /** The length before the first `&` reads back, and the text after `&type=` is handed on. */
  lemma LengthRoundTrip(length: Int32, typed: string)
    ensures ParseLengthAndRest(IntToDecimal(length) + ("&" + ("type=" + typed))) == ParseTypeAndSize(length, typed)
  {
    var len := IntToDecimal(length);
    assert '&' !in len;
    ParseRenderedInt32(length);
    LengthReadBack(len, length, typed);
  }

  /** A length text without `&` that parses as `length`, then `&type=`: the length is read and the rest handed on. */
  lemma LengthReadBack(len: string, length: Int32, typed: string)
    requires '&' !in len && ParseInt32(len) == Some(length)
    ensures ParseLengthAndRest(len + ("&" + ("type=" + typed))) == ParseTypeAndSize(length, typed)
  {
    LengthText(len, typed);
    LengthParts(len + ("&" + ("type=" + typed)), len, length, typed);
  }

  /** Where `L&type=T` is cut by its first `&` when `L` has none. */
  lemma LengthText(len: string, typed: string)
    requires '&' !in len
    ensures IndexOf(len + ("&" + ("type=" + typed)), '&') == |len|
    ensures (len + ("&" + ("type=" + typed)))[..|len|] == len
    ensures (len + ("&" + ("type=" + typed)))[|len| + 1..] == "type=" + typed
  {
    var after := "&" + ("type=" + typed);
    IndexOfAfter(len, after, '&');
    assert (len + after)[|len| + 1..] == after[1..];
  }

  /** A text cut at its first `&` into a parsable length and `type=` followed by the rest. */
  lemma LengthParts(rest: string, len: string, length: Int32, typed: string)
    requires IndexOf(rest, '&') == |len| && rest[..|len|] == len && ParseInt32(len) == Some(length)
    requires rest[|len| + 1..] == "type=" + typed
    ensures ParseLengthAndRest(rest) == ParseTypeAndSize(length, typed)
  {
    assert "type=" <= "type=" + typed && ("type=" + typed)[5..] == typed;
  }


  /** Regrouping the pieces of a request URL without a size around `&type=`. */
  lemma RegroupUrl(head: string, len: string, name: string)
    ensures head + len + "&type=" + name == head + (len + ("&" + ("type=" + name)))
  {
    assert "&type=" == "&" + "type=";
  }

  /** Regrouping the pieces of a request URL with a size around `&type=`. */
  lemma RegroupSizedUrl(head: string, len: string, name: string, size: string)
    ensures head + len + "&type=" + name + "&size=" + size == head + (len + ("&" + ("type=" + (name + "&size=" + size))))
  {
    assert "&type=" == "&" + "type=";
  }

  /** A request URL is the endpoint, `?length=`, the length and `&type=` followed by the type (and size). */
  lemma RequestUrlShape(endpoint: string, dataType: RequestedDataType, length: Int32, size: Int32)
    ensures RequestUrl(endpoint, dataType, length, size)
         == (endpoint + "?length=") + (IntToDecimal(length) + ("&" + ("type=" + TypeAndSizeText(dataType, size))))
  {
    if dataType == Hex16 {
      RegroupSizedUrl(endpoint + "?length=", IntToDecimal(length), TypeName(dataType), IntToDecimal(size));
    } else {
      RegroupUrl(endpoint + "?length=", IntToDecimal(length), TypeName(dataType));
    }
  }

  /** What follows the endpoint in a request URL does not depend on the endpoint. */
  lemma RequestUrlAfterEndpoint(endpoint: string, dataType: RequestedDataType, length: Int32, size: Int32)
    ensures |endpoint| <= |RequestUrl(endpoint, dataType, length, size)|
    ensures RequestUrl(endpoint, dataType, length, size)[|endpoint|..] == RequestUrl("", dataType, length, size)
  {
    var rest := IntToDecimal(length) + ("&" + ("type=" + TypeAndSizeText(dataType, size)));
    RequestUrlShape(endpoint, dataType, length, size);
    RequestUrlShape("", dataType, length, size);
    DropEndpoint(endpoint, "?length=", rest);
  }

  /** The text after an endpoint does not depend on the endpoint. */
  lemma DropEndpoint(endpoint: string, head: string, rest: string)
    ensures ((endpoint + head) + rest)[|endpoint|..] == ("" + head) + rest
  {
    assert (endpoint + head) + rest == endpoint + (head + rest);
    assert "" + head == head;
  }


  /** Reading the parameters back from a built URL recovers the type, the length and (for `hex16`) the size. */
  lemma {:induction false} RequestUrlRoundTrip(endpoint: string, dataType: RequestedDataType, length: Int32, size: Int32)
    ensures ParseRequestUrl(endpoint, RequestUrl(endpoint, dataType, length, size)) == Some(Expected(dataType, length, size))
  {
    var head := endpoint + "?length=";
    var rest := IntToDecimal(length) + ("&" + ("type=" + TypeAndSizeText(dataType, size)));
    RequestUrlShape(endpoint, dataType, length, size);
    assert (head + rest)[|head|..] == rest;
    LengthRoundTrip(length, TypeAndSizeText(dataType, size));
    TypeAndSizeRoundTrip(dataType, length, size);
  }
}
