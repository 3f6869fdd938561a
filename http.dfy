/** What a handler hands back to the web framework: a JSON response with a
    status code, or an error returned to the framework unanswered. */
module Http {
  import opened Common
  import opened UserTypes

  const StatusOK := 200
  const StatusCreated := 201
  const StatusBadRequest := 400
  const StatusUnauthorized := 401
  const StatusInternalServerError := 500

  /** The JSON bodies the core writes. */
  datatype Body =
    | ErrorText(error: string)                      // {"error": "<text>"}
    | ErrorFields(fields: map<string, string>)      // {"error": {<field>: <message>}}
    | ErrorValidation(failures: seq<FieldError>)    // {"error": <the user validation error map>}
    | AccessToken(accessToken: string)              // {"access_token": "<token>"}
    | Message(message: string)                      // {"message": "<text>"}
    | UserLoaded(message: string, data: UserRecord) // {"message": "<text>", "data": <user>}

  datatype Response =
    | Respond(status: int, body: Body)
    | Returned(err: Error)
}
