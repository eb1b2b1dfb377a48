/**
 * `Client.cs`, the older revision of the library: the same abstract `ApiClient` with two
 * subclasses, each with its own `GetRequestUrl()`. Its copy of `DirtyClient` is the code of
 * `DirtyClient.cs` line for line and is modelled by the `DirtyClient` module.
 */
module Client {
  import opened Wrappers
  import opened Numbers
  import opened Shared
  import opened QueryString

  /**
   * The base class's `RequestAsync`: a null or empty body throws "Cannot download data!",
   * any other body is handed to the JSON reader.
   */
  function CheckedBody(body: string): (r: Result<string, Error>)
    ensures r.Failure? <==> body == ""
    ensures r.Success? ==> r.value == body
    ensures r.Failure? ==> r.error == CannotDownloadData(CannotDownloadMessage)
  {
    if body == "" then Failure(CannotDownloadData(CannotDownloadMessage)) else Success(body)
  }

  /** `OldApiClient`: the legacy endpoint; both setters accept 1..1024. */
  class OldApiClient {
    var dataType: RequestedDataType
    /** Public backing fields: callers may also write them directly, unchecked. */
    var arrayLength: Int32
    var blockSize: Int32

    /** A fresh client asks for ten `uint8` numbers with block size ten. */
    constructor ()
      ensures dataType == Uint8 && arrayLength == 10 && blockSize == 10
    {
      dataType := Uint8;
      arrayLength := 0xA;
      blockSize := 0xA;
    }

    /** The `ArrayLength` setter: stores `value` when it is in 1..1024, else throws and stores nothing. */
    method SetArrayLength(value: Int32) returns (outcome: Outcome<Error>)
      modifies this`arrayLength
      ensures outcome == if 1 <= value <= MaxArrayLength then Pass else Fail(ArgumentException(ArrayLengthMessage))
      ensures arrayLength == if outcome.Pass? then value else old(arrayLength)
    {
      if value < 1 || value > 0x400 {
        return Fail(ArgumentException(ArrayLengthMessage));
      }
      arrayLength := value;
      return Pass;
    }

    /** The `BlockSize` setter: stores `value` when it is in 1..1024, else throws and stores nothing. */
    method SetBlockSize(value: Int32) returns (outcome: Outcome<Error>)
      modifies this`blockSize
      ensures outcome == if 1 <= value <= OldMaxBlockSize then Pass else Fail(ArgumentException(OldBlockSizeMessage))
      ensures blockSize == if outcome.Pass? then value else old(blockSize)
    {
      if value < 1 || value > 0x400 {
        return Fail(ArgumentException(OldBlockSizeMessage));
      }
      blockSize := value;
      return Pass;
    }

    /** `GetRequestUrl()`: the URL for the client's fields on the legacy endpoint. */
    function GetRequestUrl(): (url: string)
      reads this
      ensures OldApiEndpoint <= url
      ensures ParseRequestUrl(OldApiEndpoint, url) == Some(Expected(dataType, arrayLength, blockSize))
    {
      RequestUrlRoundTrip(OldApiEndpoint, dataType, arrayLength, blockSize);
      RequestUrl(OldApiEndpoint, dataType, arrayLength, blockSize)
    }

    /** `RequestAsync` inherits the base class's check of the body. */
    function ReceiveBody(body: string): (r: Result<string, Error>)
      ensures r == CheckedBody(body)
      ensures r.Failure? <==> body == ""
    {
      CheckedBody(body)
    }
  }

  /**
   * `NewApiClient`: the new endpoint and an API key. Its `BlockSize` setter accepts only 1..10
   * but throws with the message of the 1..1024 range.
   */
  class NewApiClient {
    const apiKey: string
    var dataType: RequestedDataType
    var arrayLength: Int32
    var blockSize: Int32

    constructor (apiKey: string)
      ensures this.apiKey == apiKey
      ensures dataType == Uint8 && arrayLength == 10 && blockSize == 10
    {
      this.apiKey := apiKey;
      dataType := Uint8;
      arrayLength := 0xA;
      blockSize := 0xA;
    }

    /** The `ArrayLength` setter: stores `value` when it is in 1..1024, else throws and stores nothing. */
    method SetArrayLength(value: Int32) returns (outcome: Outcome<Error>)
      modifies this`arrayLength
      ensures outcome == if 1 <= value <= MaxArrayLength then Pass else Fail(ArgumentException(ArrayLengthMessage))
      ensures arrayLength == if outcome.Pass? then value else old(arrayLength)
    {
      if value < 1 || value > 0x400 {
        return Fail(ArgumentException(ArrayLengthMessage));
      }
      arrayLength := value;
      return Pass;
    }

    /** The `BlockSize` setter: stores `value` when it is in 1..10, else throws the 1..1024 message. */
    method SetBlockSize(value: Int32) returns (outcome: Outcome<Error>)
      modifies this`blockSize
      ensures outcome == if 1 <= value <= NewMaxBlockSize then Pass else Fail(ArgumentException(OldBlockSizeMessage))
      ensures blockSize == if outcome.Pass? then value else old(blockSize)
    {
      if value < 1 || value > 0xA {
        return Fail(ArgumentException(OldBlockSizeMessage));
      }
      blockSize := value;
      return Pass;
    }

    /** `GetRequestUrl()`: the URL for the client's fields on the new endpoint. */
    function GetRequestUrl(): (url: string)
      reads this
      ensures NewApiEndpoint <= url
      ensures ParseRequestUrl(NewApiEndpoint, url) == Some(Expected(dataType, arrayLength, blockSize))
    {
      RequestUrlRoundTrip(NewApiEndpoint, dataType, arrayLength, blockSize);
      RequestUrl(NewApiEndpoint, dataType, arrayLength, blockSize)
    }

    /** The `RequestAsync` override sends the key and hands any body, even an empty one, to the JSON reader. */
    function ReceiveBody(body: string): (r: Result<string, Error>)
      ensures r == Success(body)
    {
      Success(body)
    }
  }

  /** Clients with the same fields build URLs that differ only in the endpoint. */
  lemma SameQueryOnBothEndpoints(legacy: OldApiClient, keyed: NewApiClient)
    requires legacy.dataType == keyed.dataType
    requires legacy.arrayLength == keyed.arrayLength && legacy.blockSize == keyed.blockSize
    ensures legacy.GetRequestUrl()[|OldApiEndpoint|..] == keyed.GetRequestUrl()[|NewApiEndpoint|..]
  {
    RequestUrlAfterEndpoint(OldApiEndpoint, legacy.dataType, legacy.arrayLength, legacy.blockSize);
    RequestUrlAfterEndpoint(NewApiEndpoint, keyed.dataType, keyed.arrayLength, keyed.blockSize);
  }

  /** Block size 11 is stored by a fresh legacy client and refused, under the 1024 message, by a fresh new-API client. */
  method BlockSizeEleven(apiKey: string) returns (oldOutcome: Outcome<Error>, newOutcome: Outcome<Error>, newBlockSize: Int32)
    ensures oldOutcome == Pass
    ensures newOutcome == Fail(ArgumentException("BlockSize must be between 1 and 1024!"))
    ensures newBlockSize == 10
  {
    var legacy := new OldApiClient();
    oldOutcome := legacy.SetBlockSize(11);
    var keyed := new NewApiClient(apiKey);
    newOutcome := keyed.SetBlockSize(11);
    newBlockSize := keyed.blockSize;
  }
}
