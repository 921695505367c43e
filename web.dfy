/** The browser environment the client modules run in: `localStorage`, the
    location (hash and query parameters) and `fetch`. `fetch` is an oracle:
    a script of deliveries that the network hands out one per call, and a log
    of every request sent, so that statements about the number and content
    of calls range over every possible network behaviour. */
module Web {
  import opened Wrappers
  import opened Json

  /** The page's window: `localStorage` entries and `location`. */
  class Window {
    var storage: map<string, string>
    /** `location.hash`, including its leading `#` when non-empty. */
    var hash: string
    /** `new URL(location.href).searchParams`, first value per name. */
    var query: map<string, string>

    constructor (storage: map<string, string>, hash: string, query: map<string, string>)
      ensures this.storage == storage && this.hash == hash && this.query == query
    {
      this.storage := storage;
      this.hash := hash;
      this.query := query;
    }

    method SetItem(key: string, value: string)
      modifies this
      ensures storage == old(storage)[key := value]
      ensures hash == old(hash) && query == old(query)
    {
      storage := storage[key := value];
    }

    method RemoveItem(key: string)
      modifies this
      ensures storage == old(storage) - {key}
      ensures hash == old(hash) && query == old(query)
    {
      storage := storage - {key};
    }

    method SetHash(h: string)
      modifies this
      ensures hash == h
      ensures storage == old(storage) && query == old(query)
    {
      hash := h;
    }
  }

  /** `localStorage.getItem(key)`: None stands for null. */
  function GetItem(storage: map<string, string>, key: string): Option<string> {
    if key in storage then Some(storage[key]) else None
  }

  /** `localStorage.getItem(key) || ""`. */
  function ItemOrEmpty(storage: map<string, string>, key: string): (r: string)
    ensures r != "" <==> key in storage && storage[key] != ""
  {
    if key in storage then storage[key] else ""
  }

  datatype UploadFile = UploadFile(name: string, size: nat)

  datatype FormValue = FText(text: string) | FFile(file: UploadFile)

  /** A `FormData` object: its entries in append order. */
  datatype FormData = FormData(entries: seq<(string, FormValue)>)

  /** `opts.body` as a caller passes it: absent (undefined), a `FormData`, or a JSON-able value. */
  datatype Body = NoBody | FormBody(form: FormData) | ValueBody(value: Json)

  /** The body handed to `fetch`: the caller's value unchanged, or `JSON.stringify(value)`. */
  datatype OutBody = Unchanged(body: Body) | Stringified(value: Json)

  /** One outbound call; header names are kept in lower case, as `Headers` normalises them. */
  datatype Request = Request(url: string, verb: string, headers: map<string, string>, body: OutBody)

  /** A response: status, body text, and the value `JSON.parse` gives for it (None when it throws). */
  datatype Reply = Reply(status: int, text: string, parsed: Option<Json>) {
    /** `Response.ok`. */
    predicate Ok() { 200 <= status <= 299 }
  }

  /** What a `fetch` promise settles to: a reply, or a rejection (network failure). */
  datatype Delivery = Delivered(reply: Reply) | NetworkError

  /** The delivery for the `i`-th call of a script; calls past its end fail. */
  function Nth(script: seq<Delivery>, i: nat): Delivery {
    if i < |script| then script[i] else NetworkError
  }

  function Drop(script: seq<Delivery>, k: nat): seq<Delivery> {
    if k <= |script| then script[k..] else []
  }

  class Network {
    /** Every request sent so far, in order. */
    var sent: seq<Request>
    /** The deliveries still to come. */
    var script: seq<Delivery>

    constructor (script: seq<Delivery>)
      ensures sent == [] && this.script == script
    {
      sent := [];
      this.script := script;
    }

    method Fetch(req: Request) returns (d: Delivery)
      modifies this
      ensures sent == old(sent) + [req]
      ensures d == Nth(old(script), 0)
      ensures script == Drop(old(script), 1)
    {
      sent := sent + [req];
      if script == [] {
        d := NetworkError;
      } else {
        d := script[0];
        script := script[1..];
      }
    }
  }
}
