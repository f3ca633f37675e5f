/**
 The Vault server as the program sees it, and the record of the calls made to it. A server is any
 function from the position of a call in that record and the call itself to a reply, so replies to
 equal calls may differ over time.
 */
module Vault {
  import opened Results
  import Json

  /** A GET (or a LIST, its `list=true` form) of a raw path under a token. */
  datatype Request = Request(token: string, path: string, list: bool)

  /** vaultGet's classification, with 200 split by whether the body is JSON at all. */
  datatype Reply =
    | Body(body: Json.Value)  // 200
    | Garbled                 // 200 with an undecodable body
    | Denied                  // 403 or 404
    | Broken                  // any other status, or a transport failure

  datatype Mint = Mint(token: string, accessor: string, tokenType: string, ttl: int,
                       renewable: bool, orphan: Option<bool>, warnings: seq<string>)

  /** Why a read was issued; the wire does not show it, the record does. */
  datatype Purpose = Listing | EntryRead | Deref | Directive

  datatype MintRequest = MintRequest(policies: seq<string>, meta: map<string, string>, displayName: string)

  datatype Event =
    | Read(purpose: Purpose, req: Request, reply: Reply)
    | MintCall(auth: string, asked: MintRequest, minted: Option<Mint>)
    | RevokeCall(token: string, revoked: bool)
    | LoginCall(granted: Option<(string, int)>)
    | RenewCall(auth: string, renewed: Option<int>)

  type Reads = (nat, Request) -> Reply

  datatype Server = Server(read: Reads,
                           mint: (nat, MintRequest) -> Option<Mint>,
                           revoke: (nat, string) -> bool,
                           login: nat -> Option<(string, int)>,
                           renew: nat -> Option<int>)

  /** A server whose reads do not change while we look. */
  function Snapshot(v: Request -> Reply): Reads {
    (n: nat, r: Request) => v(r)
  }
}
