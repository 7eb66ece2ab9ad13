/**
 * The two shapes of payload the endpoints return: a success with the
 * output image's path, or an error with a message.
 */
module Responses {

  datatype Response = Succeeded(message: string, outputImagePath: string) | Failed(message: string)

  const RegisterSucceeded: string := "Image registration completed successfully."
  const WarpSucceeded: string := "Image warping completed successfully."

  /** The payload's `status` field. */
  function Status(response: Response): (s: string)
    ensures s == "success" <==> response.Succeeded?
    ensures s == "error" <==> response.Failed?
  {
    match response
    case Succeeded(_, _) => "success"
    case Failed(_) => "error"
  }

  /** The message when writing the output image raised `e`. */
  function WriteFailed(e: string): string
  {
    "Failed to write output image: " + e
  }

  /** The message when a transform file does not exist. */
  function MissingTransform(path: string): string
  {
    "Transform map file " + path + " does not exist."
  }
}
