// What an instance does in a cluster.

module Roles {

  datatype Kind = Member | ConfigServer | QueryRouter
}
