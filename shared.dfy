/** Declarations that both revisions of the client (`ApiClient.cs` and `Client.cs`) make alike. */
module Shared {
  import opened Wrappers

  /** The kinds of numbers the random-number API can be asked for. */
  datatype RequestedDataType = Uint8 | Uint16 | Hex16

  /** `Enum.GetName`: the name the API expects in its `type` parameter. */
  function TypeName(t: RequestedDataType): (name: string)
    ensures TypeOfName(name) == Some(t)
  {
    match t
    case Uint8 => "uint8"
    case Uint16 => "uint16"
    case Hex16 => "hex16"
  }

  /** The data type whose name is `name`, if any. */
  function TypeOfName(name: string): Option<RequestedDataType> {
    if name == "uint8" then Some(Uint8)
    else if name == "uint16" then Some(Uint16)
    else if name == "hex16" then Some(Hex16)
    else None
  }

  /** A name is recognised only when it is the name of the type it yields. */
  lemma TypeOfNameInverse(name: string)
    ensures TypeOfName(name).Some? ==> name == TypeName(TypeOfName(name).value)
  {
  }

  /** The legacy API, which needs no key. */
  const OldApiEndpoint := "https://qrng.anu.edu.au/API/jsonI.php"

  /** The key-authenticated API. */
  const NewApiEndpoint := "https://api.quantumnumbers.anu.edu.au"

  /** Largest accepted array length on both APIs, and largest block size on the legacy API. */
  const MaxArrayLength := 0x400
  const OldMaxBlockSize := 0x400

  /** Largest accepted block size on the key-authenticated API. */
  const NewMaxBlockSize := 0xA

  const ArrayLengthMessage := "ArrayLength must be between 1 and 1024!"
  const OldBlockSizeMessage := "BlockSize must be between 1 and 1024!"

  /** The text of the exception raised when a response body is empty. */
  const CannotDownloadMessage := "Cannot download data!"

  /** The exceptions the modelled code raises. */
  datatype Error =
    | ArgumentException(message: string)
    | IndexOutOfRange
    | CannotDownloadData(message: string)
    | FormatException
}
