/** Capability tokens: what a dispatched command needs, and when a token grants it. */
module Caps {
  import opened Basics
  import opened Files

  /** The capability names: "rmmway.run_script" and so on; any other string is `Other`. */
  datatype Cap = CapRunScript | CapReboot | CapFilePull | CapFilePush | Other(name: string)

  const TOKEN_ISSUER := "rmmway"

  datatype Action =
    | RunScript(token: string, scriptOk: bool)
    | Reboot(token: string)
    | FilePull(token: string)
    | FilePush(token: string, inlined: bool, mode: string)
    | CollectInventory
    | PatchQuery
    | PatchApply
    | NoAction

  datatype Command = Command(id: string, action: Action)

  datatype Claims = Claims(issuer: string, subject: string, cap: Cap, cmd: string)

  /** `decode` stands for parsing a token and checking signature, method and expiry
      against the pinned org root; None is any failure of these. */
  datatype Verifier = Verifier(decode: string -> Option<Claims>, device: string)

  datatype Verdict = Passed | Missing | Invalid | WrongIssuer | WrongDevice | WrongCapability | WrongCommand

  function Check(v: Verifier, token: string, cap: Cap, cmd: string): Verdict {
    if token == "" then Missing
    else
      match v.decode(token)
      case None => Invalid
      case Some(claims) =>
        if claims.issuer != TOKEN_ISSUER then WrongIssuer
        else if claims.subject != v.device then WrongDevice
        else if claims.cap != cap then WrongCapability
        else if cmd != "" && claims.cmd != cmd then WrongCommand
        else Passed
  }

  /** Capability and token of a command; None for actions that carry neither. */
  function ForCommand(action: Action): Option<(Cap, string)> {
    match action
    case RunScript(token, _) => Some((CapRunScript, token))
    case Reboot(token) => Some((CapReboot, token))
    case FilePull(token) => Some((CapFilePull, token))
    case FilePush(token, _, _) => Some((CapFilePush, token))
    case CollectInventory => None
    case PatchQuery => None
    case PatchApply => None
    case NoAction => None
  }

  /** MINTED SCOPE. One token can pass for commands with an id only if they ask for
      the same capability under the same id, on this device. */
  lemma TokenScope(v: Verifier, token: string, cap: Cap, cmd: string, cap': Cap, cmd': string)
    requires Check(v, token, cap, cmd) == Passed && Check(v, token, cap', cmd') == Passed
    ensures token != "" && v.decode(token).Some?
    ensures v.decode(token).value.subject == v.device && v.decode(token).value.issuer == "rmmway"
    ensures cap == cap'
    ensures cmd != "" && cmd' != "" ==> cmd == cmd'
  {
  }

  /** THE GATE, EXACTLY. A token passes if and only if it is a valid one of the one issuer for
      this device and the capability asked for, and bound to this command if the
      command has an id. */
  lemma PassedExactly(v: Verifier, token: string, cap: Cap, cmd: string)
    ensures Check(v, token, cap, cmd) == Passed <==>
            && token != "" && v.decode(token).Some?
            && var claims := v.decode(token).value;
            claims.issuer == "rmmway" && claims.subject == v.device && claims.cap == cap
            && (cmd == "" || claims.cmd == cmd)
  {
  }

  /** The command binding is checked exactly when the command has an id. */
  lemma UnboundExactly(v: Verifier, token: string, cap: Cap, cmd: string)
    requires v.decode(token).Some?
    requires Check(v, token, cap, v.decode(token).value.cmd) == Passed
    ensures Check(v, token, cap, cmd) == Passed <==> (cmd == "" || cmd == v.decode(token).value.cmd)
  {
  }
}
