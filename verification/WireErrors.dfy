/** The machine tags a wire-level failure carries. */
module WireErrors {
  datatype Tag =
    // readiness
    | SessionClosed | SessionNotReusable | ActiveStatementPresent
    // transport
    | WireReadEof | WireReadFailed | WireWriteFailed | WireSequenceMismatch | InvalidPayloadLen
    // decoding
    | LenencOutOfBounds | LenencNull | LenencTruncated | LenencInvalidPrefix | LenencInvalidLength
    | ShortOkPacket | InvalidOkHeader | OkMissingStatusOrWarnings
    | ShortErrPacket | InvalidErrHeader | TruncatedSqlState | ErrSqlstateUtf8 | ErrMessageUtf8
    | Utf8
    | ShortResponsePayload | UnsupportedLocalInfile
    | RowTruncated | RowTrailingBytes | InvalidColumnCountPacket
    | ColdefTruncatedFixedFields | ColdefBadFixedLengthMarker | MissingColdefTerminator
    // statements and commands
    | StatementConsumed | StatementInvalidMode
    | UnexpectedRowInTxCommand | UnexpectedResultsetInTxCommand | TxCommandServerErr
    | PingUnexpectedResponse
    | ResetConnectionEmptyResponse | ResetConnectionUnsupported | ResetConnectionServerErr
    | ResetConnectionUnexpectedResponse
    | CloseFailed
}
