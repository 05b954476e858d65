// A pthread mutex as a value: free, or held by one thread.
module Locks {
  datatype Lock = Free | Held(holder: nat)
}
