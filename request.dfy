/**
 * The query-string reading of `parse_request` (upurifier.py:183-192): the
 * `key=value` pieces of the captive portal's GET line, stored into the
 * configuration without any decoding.
 */
module Request {
  import opened Wrappers
  import opened Text

  /**
   * `request.split(' ')[1][2:].split('&')`: the second space-separated token,
   * without its first two characters (the "/?"), cut at every '&'. A line
   * without a space has no second token and raises IndexError.
   */
  function Params(request: string): (params: Option<seq<string>>)
    ensures params.Some? <==> ' ' in request
    ensures params.Some? ==> |params.value| >= 1
  {
    var tokens := Split(request, ' ');
    if |tokens| < 2 then
      assert ' ' !in request by {
        JoinSplit(request, ' ');
      }
      None
    else
      assert ' ' in request by {
        if ' ' !in request {
          SplitNoSeparator(request, ' ');
        }
      }
      Some(Split(DropPrefix(tokens[1], 2), '&'))
  }

  /** A piece cut at '=' into key and value; one with other than exactly one '=' raises ValueError. */
  function KeyValue(param: string): (kv: Option<(string, string)>)
    ensures kv.Some? ==> '=' !in kv.value.0 && '=' !in kv.value.1
    ensures '=' !in param ==> kv.None?
  {
    var parts := Split(param, '=');
    assert '=' !in param ==> |parts| == 1 by {
      if '=' !in param {
        SplitNoSeparator(param, '=');
      }
    }
    if |parts| == 2 then Some((parts[0], parts[1])) else None
  }

  /** A piece is accepted exactly when it is a key, one '=', and a value, neither holding '='. */
  lemma KeyValueExact(param: string, key: string, value: string)
    ensures KeyValue(param) == Some((key, value)) <==>
      param == key + "=" + value && '=' !in key && '=' !in value
  {
    if KeyValue(param) == Some((key, value)) {
      JoinSplit(param, '=');
      assert Split(param, '=') == [key, value];
      assert Join([key, value], '=') == key + "=" + value;
    }
    if param == key + "=" + value && '=' !in key && '=' !in value {
      assert Join([key, value], '=') == key + "=" + value;
      SplitJoin([key, value], '=');
    }
  }

  /** How many pieces from the front are well formed: the loop's progress before it raises. */
  function WellFormedPrefix(params: seq<string>): (n: nat)
    ensures n <= |params|
    ensures forall j :: 0 <= j < n ==> KeyValue(params[j]).Some?
    ensures n < |params| ==> KeyValue(params[n]).None?
  {
    if params == [] || KeyValue(params[0]).None? then 0
    else
      var rest := params[1..];
      var m := WellFormedPrefix(rest);
      assert forall j :: 1 <= j < 1 + m ==> KeyValue(params[j]).Some? by {
        forall j | 1 <= j < 1 + m
          ensures KeyValue(params[j]).Some?
        {
          assert params[j] == rest[j - 1];
        }
      }
      assert 1 + m < |params| ==> params[1 + m] == rest[m];
      1 + m
  }

  /** The well-formed prefix ends at the first piece that is not `key=value`. */
  lemma {:induction false} WellFormedPrefixAt(params: seq<string>, n: nat)
    requires n <= |params|
    requires forall j :: 0 <= j < n ==> KeyValue(params[j]).Some?
    requires n < |params| ==> KeyValue(params[n]).None?
    ensures WellFormedPrefix(params) == n
  {
    if n > 0 {
      WellFormedPrefixAt(params[1..], n - 1);
    }
  }

  /** `config[key] = value` for each piece in turn. */
  function Assign(config: map<string, string>, params: seq<string>): (stored: map<string, string>)
    ensures config.Keys <= stored.Keys
    decreases |params|
  {
    if params == [] then config
    else
      var before := Assign(config, params[..|params| - 1]);
      match KeyValue(params[|params| - 1])
      case Some((key, value)) => before[key := value]
      case None => before
  }

  /** Storing one more well-formed piece. */
  lemma AssignSnoc(config: map<string, string>, params: seq<string>, i: nat)
    requires i < |params| && KeyValue(params[i]).Some?
    ensures var (key, value) := KeyValue(params[i]).value;
      Assign(config, params[..i + 1]) == Assign(config, params[..i])[key := value]
  {
    assert params[..i + 1][..i] == params[..i];
  }

  /** The configuration after `parse_request`, whether or not it raised part-way. */
  function Stored(config: map<string, string>, request: string): (stored: map<string, string>)
    ensures config.Keys <= stored.Keys
    ensures ' ' !in request ==> stored == config
  {
    match Params(request)
    case None => config
    case Some(params) => Assign(config, params[..WellFormedPrefix(params)])
  }

  /** `parse_request` returns normally. */
  function Parses(request: string): (ok: bool)
    ensures ok ==> ' ' in request
  {
    Params(request).Some? && WellFormedPrefix(Params(request).value) == |Params(request).value|
  }

  /** A key that no piece names keeps its old value, or stays absent. */
  lemma {:induction false} AssignUntouched(config: map<string, string>, params: seq<string>, key: string)
    requires forall j :: 0 <= j < |params| ==> KeyValue(params[j]).None? || KeyValue(params[j]).value.0 != key
    ensures key in Assign(config, params) <==> key in config
    ensures key in config ==> Assign(config, params)[key] == config[key]
    decreases |params|
  {
    if params != [] {
      var init := params[..|params| - 1];
      forall j | 0 <= j < |init| ensures KeyValue(init[j]).None? || KeyValue(init[j]).value.0 != key {
        assert init[j] == params[j];
      }
      AssignUntouched(config, init, key);
    }
  }

  /** The last piece that names a key decides its value: a later duplicate wins. */
  lemma {:induction false} AssignLastWins(config: map<string, string>, params: seq<string>, j: nat, key: string, value: string)
    requires j < |params| && KeyValue(params[j]) == Some((key, value))
    requires forall i :: j < i < |params| ==> KeyValue(params[i]).None? || KeyValue(params[i]).value.0 != key
    ensures key in Assign(config, params) && Assign(config, params)[key] == value
    decreases |params|
  {
    var init := params[..|params| - 1];
    if j < |params| - 1 {
      forall i | j < i < |init| ensures KeyValue(init[i]).None? || KeyValue(init[i]).value.0 != key {
        assert init[i] == params[i];
      }
      assert init[j] == params[j];
      AssignLastWins(config, init, j, key, value);
    }
  }

  /**
   * A GET line made of three space-free tokens, the second of them `/?query`,
   * yields the pieces of the query.
   */
  lemma RequestLine(verb: string, query: string, version: string)
    requires ' ' !in verb && ' ' !in query && ' ' !in version
    ensures Params(Join([verb, "/?" + query, version], ' ')) == Some(Split(query, '&'))
  {
    TargetHasNoSpace(query);
    RequestTokens(verb, "/?" + query, version);
    assert DropPrefix("/?" + query, 2) == query by {
      assert ("/?" + query)[2..] == query;
    }
  }

  /** Three space-free tokens joined by spaces: the parameters come from the second. */
  lemma RequestTokens(verb: string, target: string, version: string)
    requires ' ' !in verb && ' ' !in target && ' ' !in version
    ensures Params(Join([verb, target, version], ' ')) == Some(Split(DropPrefix(target, 2), '&'))
  {
    var tokens := [verb, target, version];
    SplitJoin(tokens, ' ');
  }

  lemma TargetHasNoSpace(query: string)
    requires ' ' !in query
    ensures ' ' !in "/?" + query
  {
    var target := "/?" + query;
    forall i | 0 <= i < |target| ensures target[i] != ' ' {
      if i >= 2 {
        assert target[i] == query[i - 2];
      }
    }
  }
}
