/** The mutable outcome records: the per-scope policy details and the decision that
    pairs them.  Each class also has a value snapshot (ClientFlags, ServerFlags) that the
    scope specifications work on. */
module PolicyModel {

  /** A snapshot of a ClientPolicyDetails. */
  datatype ClientFlags = ClientFlags(visible: bool, required: bool, notAllowed: bool)

  /** A snapshot of a ServerPolicyDetails: there is no visibility on the server. */
  datatype ServerFlags = ServerFlags(required: bool, notAllowed: bool)

  const DefaultClient := ClientFlags(true, false, false)
  const DefaultServer := ServerFlags(false, false)

  /** The server part of a client snapshot. */
  function ServerPart(f: ClientFlags): (s: ServerFlags)
    ensures s.required == f.required && s.notAllowed == f.notAllowed
  {
    ServerFlags(f.required, f.notAllowed)
  }

  class ClientPolicyDetails {
    var visible: bool
    var required: bool
    var notAllowed: bool

    /** A new record is visible, optional and allowed. */
    constructor ()
      ensures Flags() == DefaultClient
    {
      visible, required, notAllowed := true, false, false;
    }

    function Flags(): ClientFlags
      reads this
    {
      ClientFlags(visible, required, notAllowed)
    }
  }

  class ServerPolicyDetails {
    var required: bool
    var notAllowed: bool

    /** A new record is optional and allowed. */
    constructor ()
      ensures Flags() == DefaultServer
    {
      required, notAllowed := false, false;
    }

    function Flags(): ServerFlags
      reads this
    {
      ServerFlags(required, notAllowed)
    }
  }

  /** The result of evaluating one attribute: a server record and a client record.
      Both fields are reassignable. */
  class PolicyDecision {
    var serverDetails: ServerPolicyDetails
    var clientDetails: ClientPolicyDetails

    /** A new decision holds two new default records. */
    constructor ()
      ensures fresh(serverDetails) && fresh(clientDetails)
      ensures serverDetails.Flags() == DefaultServer && clientDetails.Flags() == DefaultClient
    {
      serverDetails := new ServerPolicyDetails();
      clientDetails := new ClientPolicyDetails();
    }
  }
}
