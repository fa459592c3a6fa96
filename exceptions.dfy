/** The exceptions that `Main.call` catches or lets escape. */
module Exceptions {

  datatype Exn =
    /** KubeConfigReadException wrapping the I/O or YAML error described by `cause` */
    | KubeConfigRead(cause: string)
    /** NotCurrentlyLoggedInException with its message */
    | NotCurrentlyLoggedIn(message: string)
    /** a dereference of an absent (null) value */
    | NullPointer
    /** an array index outside the array */
    | ArrayIndexOutOfBounds(index: int)
}
