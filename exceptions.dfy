/** The exceptions thrown by the modelled code, one tag per exception class. */
module Exceptions {

  datatype Error =
    | ArgumentNull                 // System.ArgumentNullException
    | Argument                     // System.ArgumentException
    | ArgumentOutOfRange           // System.ArgumentOutOfRangeException
    | Overflow                     // System.OverflowException (Convert.ToByte)
    | FileNotFound                 // System.IO.FileNotFoundException
    | GeneralFailure               // a bare System.Exception
    | EncodingInfosNull            // EncodingInfosNullException
    | EndOfFileExtractLiteral      // EndOfFileExtractLiteralException
    | UnknownCharacter             // UnknownCharacterException
  {
    /** EndOfFileExtractLiteralException is the only concrete subclass of
        the abstract ExtractLiteralException. */
    predicate IsExtractLiteral() {
      EndOfFileExtractLiteral?
    }
  }
}
