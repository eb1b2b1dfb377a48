/**
 * `ApiClient.cs`: the random-number API client. The abstract base class and its two
 * subclasses (`OldApiClient`, `NewApiClient`) are one class here whose `variant`
 * selects the endpoint and the block-size limit. `NewApiClient` also holds the API key
 * and overrides the request: it sends the key header and skips the empty-body check,
 * which `ReceiveBody` models.
 */
module ApiClient {
  import opened Wrappers
  import opened Numbers
  import opened Shared
  import opened QueryString
  import opened RequestEntity

  /** Which subclass: the legacy API, or the new API with its key. */
  datatype ApiVariant = OldApi | NewApi(apiKey: string)

  function ApiEndpoint(variant: ApiVariant): string {
    if variant.OldApi? then OldApiEndpoint else NewApiEndpoint
  }

  function MaxBlockSize(variant: ApiVariant): int {
    if variant.OldApi? then OldMaxBlockSize else NewMaxBlockSize
  }

  function BlockSizeMessage(variant: ApiVariant): string {
    if variant.OldApi? then OldBlockSizeMessage else "BlockSize must be between 1 and 10!"
  }

  class ApiClient {
    const variant: ApiVariant
    var dataType: RequestedDataType
    /** Public backing fields: callers may also write them directly, unchecked. */
    var arrayLength: Int32
    var blockSize: Int32

    /** A fresh client asks for ten `uint8` numbers with block size ten. */
    constructor (variant: ApiVariant)
      ensures this.variant == variant
      ensures dataType == Uint8 && arrayLength == 10 && blockSize == 10
    {
      this.variant := variant;
      dataType := Uint8;
      arrayLength := 0xA;
      blockSize := 0xA;
    }

    /** The `ArrayLength` getter: the raw field. */
    function ArrayLength(): Int32
      reads this
    {
      arrayLength
    }

    /** The `BlockSize` getter: the raw field. */
    function BlockSize(): Int32
      reads this
    {
      blockSize
    }

    /** The `ArrayLength` setter: stores `value` when it is in 1..1024, else throws and stores nothing. */
    method SetArrayLength(value: Int32) returns (outcome: Outcome<Error>)
      modifies this`arrayLength
      ensures outcome == if 1 <= value <= MaxArrayLength then Pass else Fail(ArgumentException(ArrayLengthMessage))
      ensures arrayLength == if outcome.Pass? then value else old(arrayLength)
    {
      if value < 1 || value > 0x400 {
        return Fail(ArgumentException(ArrayLengthMessage));
      }
      arrayLength := value;
      return Pass;
    }

    /** The `BlockSize` setter: 1..1024 on the legacy API, 1..10 on the new one. */
    method SetBlockSize(value: Int32) returns (outcome: Outcome<Error>)
      modifies this`blockSize
      ensures outcome == if 1 <= value <= MaxBlockSize(variant) then Pass else Fail(ArgumentException(BlockSizeMessage(variant)))
      ensures blockSize == if outcome.Pass? then value else old(blockSize)
    {
      if value < 1 || value > MaxBlockSize(variant) {
        return Fail(ArgumentException(BlockSizeMessage(variant)));
      }
      blockSize := value;
      return Pass;
    }

    /** The `DataType` auto-property setter. */
    method SetDataType(value: RequestedDataType)
      modifies this`dataType
      ensures dataType == value
    {
      dataType := value;
    }

    /**
     * `GetRequestUrl(requestEntity)`: the URL for the client's own fields. The `uint8` branch
     * reads `arrayLength` and the others the `ArrayLength` getter, which returns the same field;
     * the entity argument is never read.
     */
    function GetRequestUrl(requestEntity: AnuRequestEntity?): (url: string)
      reads this
      ensures ParseRequestUrl(ApiEndpoint(variant), url) == Some(Expected(dataType, arrayLength, blockSize))
    {
      RequestUrlRoundTrip(ApiEndpoint(variant), dataType, ArrayLength(), blockSize);
      RequestUrl(ApiEndpoint(variant), dataType, ArrayLength(), blockSize)
    }

    /**
     * What `RequestAsync` hands to the JSON reader: the base class rejects an empty body,
     * the new API's override passes any body on.
     */
    function ReceiveBody(body: string): (r: Result<string, Error>)
      ensures r.Success? ==> r.value == body
      ensures variant.OldApi? ==> (r.Failure? <==> body == "")
      ensures r.Failure? ==> r.error == CannotDownloadData(CannotDownloadMessage)
      ensures variant.NewApi? ==> r.Success?
    {
      if variant.OldApi? && body == "" then Failure(CannotDownloadData(CannotDownloadMessage)) else Success(body)
    }
  }

  /** Block size 11 is stored by a fresh legacy client and refused by a fresh new-API client, whose field keeps 10. */
  method BlockSizeEleven(apiKey: string) returns (oldOutcome: Outcome<Error>, newOutcome: Outcome<Error>, newBlockSize: Int32)
    ensures oldOutcome == Pass
    ensures newOutcome == Fail(ArgumentException("BlockSize must be between 1 and 10!"))
    ensures newBlockSize == 10
  {
    var legacy := new ApiClient(OldApi);
    oldOutcome := legacy.SetBlockSize(11);
    var keyed := new ApiClient(NewApi(apiKey));
    newOutcome := keyed.SetBlockSize(11);
    newBlockSize := keyed.BlockSize();
  }

  /** The URL is the same whichever entity is passed: the argument is never read. */
  lemma EntityIgnored(client: ApiClient, first: AnuRequestEntity?, second: AnuRequestEntity?)
    ensures client.GetRequestUrl(first) == client.GetRequestUrl(second)
  {
  }

  /** A value written straight into the public field, even out of range, is what the URL carries. */
  method DirectFieldWrite(client: ApiClient, length: Int32) returns (url: string)
    modifies client`arrayLength
    ensures client.arrayLength == length && client.ArrayLength() == length
    ensures ParseRequestUrl(ApiEndpoint(client.variant), url) == Some(Expected(client.dataType, length, client.blockSize))
  {
    client.arrayLength := length;
    url := client.GetRequestUrl(null);
  }
}
