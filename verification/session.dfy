/** The client's own AppRole session: the mutex-guarded state of internal/vaultx/client.go and what
    each critical section does to it. */
module Session {
  import opened Results
  import opened Vault

  /** `apiToken` is the default token of the underlying API client, set beside `token`. */
  datatype Session = Session(apiToken: string, token: string, leaseSeconds: int,
                             sessionOK: bool, canaryOK: bool)

  const FRESH := Session("", "", 0, false, false)

  /** The locked section of a successful Login. */
  function LoggedIn(token: string, lease: int): Session { Session(token, token, lease, true, false) }

  /** The locked section of a successful renewal. */
  function Renewed(s: Session, lease: int): Session { s.(leaseSeconds := lease, sessionOK := true) }

  predicate HealthyIn(s: Session) { s.sessionOK && s.canaryOK }

  /** canaryAssertMintProperties: none of the three assertions fails. */
  predicate SoundMint(m: Mint) {
    m.tokenType == "service" && !m.renewable && m.orphan != Some(false)
  }

  /** A login reply that grants a session. */
  predicate Grants(reply: Option<(string, int)>) { reply.Some? && reply.value.0 != "" }
}
