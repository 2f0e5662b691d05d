/** The record and envelope shapes shared by the client and the server. */
module ImageTypes {
  import opened Wrappers
  import opened Js

  /** `{ width, height }` as produced by `dimensions.split('x').map(Number)`. */
  datatype Dimensions = Dimensions(width: Num, height: Num)

  /** One generated image as kept in the gallery and the history. */
  datatype GeneratedImage = GeneratedImage(
    id: string,
    url: string,
    prompt: string,
    timestamp: int,
    dimensions: Option<Dimensions>,
    style: Option<string>)

  /** The body of a generation request; an absent field is `None`. */
  datatype GenerationRequest = GenerationRequest(
    prompt: Option<string>,
    style: Option<string>,
    dimensions: Option<string>)

  /** The uniform `{ success, imageUrl?, error? }` envelope. */
  datatype GenerationResponse = GenerationResponse(
    success: bool,
    imageUrl: Option<string>,
    error: Option<string>)

  /** The envelope of a failure carrying `message`. */
  function Failure(message: string): GenerationResponse {
    GenerationResponse(false, None, Some(message))
  }
}
