/**
 * HTTP cookies as the web layer sees them: a multi-value cookie (HttpCookie with its Values collection)
 * and the ordered cookie collections of the current request and response.
 *
 * The helper the source reaches them through (HttpContextHelper) is not part of this model; `HttpCookies`
 * stands in for it: the request cookies are what the browser sent and never change, the response
 * cookies are added to and removed from.
 */
module Cookies {
  import opened Wrappers

  /** Expires: unset (a session cookie), a given date, or DateTime.Now.AddDays(-1). */
  datatype Expiry = SessionOnly | ExpiresAt(date: int) | ExpiredYesterday

  datatype Cookie = Cookie(name: string, values: map<string, string>, expires: Expiry)

  /** HttpCookie's string indexer: the value stored under a key, or null. */
  function Lookup(values: map<string, string>, key: string): (r: Option<string>)
    ensures r.Some? <==> key in values
    ensures r.Some? ==> r.value == values[key]
  {
    if key in values then Some(values[key]) else None
  }

  /** AllKeys: the cookie names of a collection, in collection order. */
  function Names(cs: seq<Cookie>): (r: seq<string>)
    ensures |r| == |cs| && forall i | 0 <= i < |cs| :: r[i] == cs[i].name
  {
    seq(|cs|, i requires 0 <= i < |cs| => cs[i].name)
  }

  /** The collection's indexer: the first cookie with that name, or null. */
  function Find(cs: seq<Cookie>, name: string): (r: Option<Cookie>)
    ensures r.Some? <==> name in Names(cs)
    ensures r.Some? ==> r.value in cs && r.value.name == name
  {
    if cs == [] then None
    else if cs[0].name == name then Some(cs[0])
    else
      assert Names(cs) == [cs[0].name] + Names(cs[1..]);
      Find(cs[1..], name)
  }

  /** Remove(name): the collection without any cookie of that name. */
  function Without(cs: seq<Cookie>, name: string): (r: seq<Cookie>)
    ensures forall c :: c in r <==> c in cs && c.name != name
    ensures name !in Names(r)
  {
    if cs == [] then []
    else if cs[0].name == name then Without(cs[1..], name)
    else
      var rest := Without(cs[1..], name);
      assert Names([cs[0]] + rest) == [cs[0].name] + Names(rest);
      [cs[0]] + rest
  }

  /** After removing a name and adding a cookie of that name, the collection's indexer finds the new cookie. */
  lemma FindReplaced(cs: seq<Cookie>, c: Cookie)
    ensures Find(Without(cs, c.name) + [c], c.name) == Some(c)
  {
    FindAppended(Without(cs, c.name), c);
  }

  lemma {:induction false} FindAppended(cs: seq<Cookie>, c: Cookie)
    requires c.name !in Names(cs)
    ensures Find(cs + [c], c.name) == Some(c)
  {
    if cs != [] {
      assert (cs + [c])[1..] == cs[1..] + [c];
      assert Names(cs) == [cs[0].name] + Names(cs[1..]);
      FindAppended(cs[1..], c);
    }
  }

  /** Removing and adding one name leaves what the indexer finds under every other name unchanged. */
  lemma {:induction false} FindOtherReplaced(cs: seq<Cookie>, c: Cookie, name: string)
    requires name != c.name
    ensures Find(Without(cs, c.name) + [c], name) == Find(cs, name)
  {
    if cs != [] {
      FindOtherReplaced(cs[1..], c, name);
      if cs[0].name == c.name {
        assert Without(cs, c.name) == Without(cs[1..], c.name);
      } else {
        assert Without(cs, c.name) + [c] == [cs[0]] + (Without(cs[1..], c.name) + [c]);
      }
    } else {
      assert Find([c], name) == None;
    }
  }

  /** The cookies of the current request and response. */
  class HttpCookies {
    const request: seq<Cookie>
    var response: seq<Cookie>

    constructor (request: seq<Cookie>, response: seq<Cookie>)
      ensures this.request == request && this.response == response
    {
      this.request := request;
      this.response := response;
    }

    /** HasCookie: whether the response already carries a cookie of that name. */
    predicate HasCookie(name: string)
      reads this
    {
      name in Names(response)
    }

    method RemoveCookie(name: string)
      modifies this
      ensures response == Without(old(response), name)
    {
      response := Without(response, name);
    }

    method AddCookie(c: Cookie)
      modifies this
      ensures response == old(response) + [c]
    {
      response := response + [c];
    }
  }
}
