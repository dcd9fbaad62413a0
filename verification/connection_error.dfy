/** The errors a connection reports to its listener. */
module ConnectionErrors {
  datatype ConnectionError = None | InvalidServerOrName | FailedToConnect | ExceededRetries
}
