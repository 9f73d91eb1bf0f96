/**
 reconcileSelfSignedTLS as the source runs it (internal/controller/openshellgateway_controller.go):
 the Secrets are read, compared and rewritten one after the other.
 */
module PkiController {
  import opened Options
  import opened SanEncoding
  import opened PkiProtocol

  class TlsReconciler {
    const digest: string -> string
    var gw: Gateway
    var servers: map<string, ServerSecret>
    var clients: map<string, nat>
    var generated: nat

    ghost function View(): State
      reads this
    {
      State(gw, servers, clients, generated)
    }

    constructor (digest: string -> string, gw: Gateway)
      ensures this.digest == digest && View() == After(digest, gw, [])
    {
      this.digest := digest;
      this.gw := gw;
      servers, clients, generated := map[], map[], 0;
    }

    method ReconcileSelfSignedTLS(o: Outcomes) returns (ok: bool)
      modifies this
      ensures Result(View(), ok) == ReconcilePass(digest, old(View()), o)
    {
      var ns := TargetNamespace(gw);
      var sans := ServerSANs(gw);
      var sansHash := HashSANs(sans, digest);
      if !o.serverRead {
        return false;
      }
      if !o.clientRead {
        return false;
      }
      if ns in servers && ns in clients {
        if servers[ns].hash == Some(sansHash) {
          return true;
        }
      }
      if !o.generates {
        return false;
      }
      var ca := generated;
      generated := generated + 1;
      if !o.server.Refused? {
        servers := servers[ns := ServerSecret(Some(sansHash), sans, ca)];
      }
      if !o.server.Done? {
        return false;
      }
      if !o.client.Refused? {
        clients := clients[ns := ca];
      }
      return o.client.Done?;
    }
  }
}
