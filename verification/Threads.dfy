/** Names of threads. */
module Threads {
  datatype Tid = Tid(id: nat)
}
