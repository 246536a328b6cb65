/** The CORS policy of main-app/src/main.rs: which `Origin` values the server
    answers with credentials. */
module Cors {
  import opened Wrappers
  import opened Strings

  /** `allowed_origin_fn`: any port on the loopback names over plain http, or
      those names with no port. A header value that is not text (`None`) is
      read as "". */
  predicate LoopbackOrigin(origin: Option<string>): (b: bool)
    ensures b ==> origin.Some?
    ensures b ==> StartsWith(origin.value, "http://localhost") || StartsWith(origin.value, "http://127.0.0.1")
  {
    var o := origin.GetOr("");
    StartsWith(o, "http://localhost:") || StartsWith(o, "http://127.0.0.1:")
    || o == "http://localhost" || o == "http://127.0.0.1"
  }

  const FixedOrigins: seq<string> := ["https://tevet-troc-client.vercel.app", "https://nsdhso.github.io"]

  /** The whole policy: the predicate, or one of the two listed origins. */
  predicate Allowed(origin: Option<string>): (b: bool)
    ensures b ==> origin.Some?
    ensures origin.Some? && origin.value in FixedOrigins ==> b
    ensures LoopbackOrigin(origin) ==> b
    ensures b && !LoopbackOrigin(origin) ==> origin.value in FixedOrigins
  {
    LoopbackOrigin(origin) || (origin.Some? && origin.value in FixedOrigins)
  }

  /** A loopback origin is accepted exactly when it is the bare name or the
      name followed by ':' and something. */
  lemma LoopbackShape(o: string)
    ensures LoopbackOrigin(Some(o)) <==>
      (exists rest :: (o == "http://localhost:" + rest || o == "http://127.0.0.1:" + rest))
      || o == "http://localhost" || o == "http://127.0.0.1"
  {
    if StartsWith(o, "http://localhost:") {
      assert o == "http://localhost:" + o[17..];
    }
    if StartsWith(o, "http://127.0.0.1:") {
      assert o == "http://127.0.0.1:" + o[17..];
    }
    forall rest | o == "http://localhost:" + rest || o == "http://127.0.0.1:" + rest
      ensures StartsWith(o, "http://localhost:") || StartsWith(o, "http://127.0.0.1:")
    {
      if o == "http://localhost:" + rest {
        assert o[..17] == "http://localhost:";
      } else {
        assert o[..17] == "http://127.0.0.1:";
      }
    }
  }

  /** Look-alike hosts and https loopback are refused; a text-less header is
      refused; the listed origins and a loopback port are accepted. */
  lemma OriginExamples()
    ensures !Allowed(Some("http://localhost.evil.com"))
    ensures !Allowed(Some("https://localhost:3000"))
    ensures !Allowed(None)
    ensures Allowed(Some("http://localhost:5173")) && Allowed(Some("http://127.0.0.1"))
    ensures Allowed(Some("https://nsdhso.github.io"))
  {
    assert "http://localhost.evil.com"[..17] != "http://localhost:" by {
      assert "http://localhost.evil.com"[16] == '.';
    }
    assert "http://localhost.evil.com"[..17] != "http://127.0.0.1:" by {
      assert "http://localhost.evil.com"[7] == 'l';
    }
    assert "https://localhost:3000"[..17] != "http://localhost:" by {
      assert "https://localhost:3000"[4] == 's';
    }
    assert "https://localhost:3000"[..17] != "http://127.0.0.1:" by {
      assert "https://localhost:3000"[4] == 's';
    }
    assert "http://localhost:5173"[..17] == "http://localhost:";
  }
}
