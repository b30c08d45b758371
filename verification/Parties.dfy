/** The two parties of a connection. */
module Parties {
  datatype Role = Leader | Follower
}
