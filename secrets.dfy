/**
 * `_get_secret` (chains.py): a setting is read from the host's secret store
 * when there is one, and from the process environment when the store has no
 * usable value.
 */
module Secrets {
  import opened Wrappers

  /** One lookup in the secret store: it returns a value (possibly `None`) or
      raises. */
  datatype Lookup = Returned(value: Option<string>) | Raised

  /** The host: either no secret store at all (Streamlit is missing, or has
      no `secrets` attribute), or a store answering lookups by name. */
  datatype Host = NoStore | Store(lookup: string -> Lookup)

  /** Python truthiness of an optional string: present and non-empty. */
  predicate Truthy(v: Option<string>) {
    v.Some? && v.value != ""
  }

  /** `os.getenv(name)` */
  function Getenv(env: map<string, string>, name: string): (r: Option<string>)
    ensures r.Some? <==> name in env
    ensures r.Some? ==> r.value == env[name]
  {
    if name in env then Some(env[name]) else None
  }

  /** The value `_get_secret(name)` resolves to: the store's value when it is
      truthy, and otherwise the environment's. */
  function SecretFor(host: Host, env: map<string, string>, name: string): (r: Option<string>)
    ensures (host.Store? && host.lookup(name).Returned? && Truthy(host.lookup(name).value))
              ==> r == host.lookup(name).value
    ensures host.NoStore? ==> r == Getenv(env, name)
    ensures host.Store? && host.lookup(name).Raised? ==> r == Getenv(env, name)
    ensures (host.Store? && host.lookup(name).Returned? && !Truthy(host.lookup(name).value))
              ==> r == Getenv(env, name)
    ensures Truthy(r)
        <==> (host.Store? && host.lookup(name).Returned? && Truthy(host.lookup(name).value))
             || (name in env && env[name] != "")
  {
    if host.Store? && host.lookup(name).Returned? && Truthy(host.lookup(name).value)
    then host.lookup(name).value
    else Getenv(env, name)
  }

  /** `_get_secret(name)`: `val` starts as `None`, takes the store's answer
      when the lookup does not raise, and gives way to the environment when
      it is not truthy. */
  method GetSecret(host: Host, env: map<string, string>, name: string) returns (r: Option<string>)
    ensures r == SecretFor(host, env, name)
  {
    var val: Option<string> := None;
    if host.Store? {
      var answer := host.lookup(name);
      if answer.Returned? {
        val := answer.value;
      }
    }
    if Truthy(val) {
      r := val;
    } else {
      r := Getenv(env, name);
    }
  }
}
