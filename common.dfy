/** Shared value types: optional values, JavaScript truthiness of an optional
    string, and the HTTP session record that login writes and the session
    gate reads. */
module Common {

  datatype Option<+T> = None | Some(value: T)

  /** An HTTP answer: a status with the `data` payload, or a status with an
      error `message`. */
  datatype Response<T> = Success(status: nat, data: T) | Failure(status: nat, message: string)

  /** A request field as JavaScript sees it: `None` is `undefined`, and a
      string is truthy exactly when it is not empty. */
  predicate Truthy(o: Option<string>) {
    o.Some? && o.value != ""
  }

  /** `a || b` on two optional strings: the first one if it is truthy. */
  function OrElse(a: Option<string>, b: string): (r: string)
    ensures Truthy(a) ==> r == a.value
    ensures !Truthy(a) ==> r == b
  {
    if Truthy(a) then a.value else b
  }

  /** A body field that is present replaces the current value. */
  function Pick<T>(field: Option<T>, current: T): (r: T)
    ensures field.Some? ==> r == field.value
    ensures field.None? ==> r == current
  {
    if field.Some? then field.value else current
  }

  /** The fields of `req.session` that the backend reads or writes. Record
      ids are modelled as natural numbers; a MongoDB ObjectId is always truthy. */
  datatype Session = Session(userId: Option<nat>, email: Option<string>)

  /** `req.ip || req.connection.remoteAddress`. */
  function ClientAddress(ip: Option<string>, remoteAddress: string): string {
    OrElse(ip, remoteAddress)
  }

  /** An entry of a `{ value, label }` option list; `name` holds the label. */
  datatype LabelOption = LabelOption(value: string, name: string)

  /** `options.find(o => o.value === value)?.label || value`: the label of the
      first entry with this value, or the value itself when there is no such
      entry or its label is empty. */
  function LabelOr(options: seq<LabelOption>, value: string): (r: string)
    ensures (forall i :: 0 <= i < |options| ==> options[i].value != value) ==> r == value
    ensures forall i :: (0 <= i < |options| && options[i].value == value
                         && (forall k :: 0 <= k < i ==> options[k].value != value)) ==>
                        r == (if options[i].name != "" then options[i].name else value)
  {
    if options == [] then value
    else if options[0].value == value then (if options[0].name != "" then options[0].name else value)
    else
      var r := LabelOr(options[1..], value);
      assert forall i :: 1 <= i < |options| ==> options[i] == options[1..][i - 1];
      r
  }

  /** `filter !== 'all' ? { key: filter } : {}`: the query parameter a list
      page sends for its filter buttons, absent for `all`. */
  function FilterParam(filter: string): (p: Option<string>)
    ensures p.None? <==> filter == "all"
    ensures p.Some? ==> p.value == filter
  {
    if filter != "all" then Some(filter) else None
  }
}
