/**
 The health-check endpoint (pingdom/views.py): every registered service is
 checked, the results are collected in a dictionary keyed by service name,
 and the answer is an XML document saying OK with HTTP 200, or FALSE with
 HTTP 500 followed by one XML comment per failed check.
 */
module Pingdom {
  import opened Results

  /** What `service().check()` returns: `(ok, message)`. */
  datatype CheckResult = CheckResult(ok: bool, message: string)

  /** A registered service together with the result its check produces. */
  datatype Service = Service(name: string, result: CheckResult)

  /** A Python dict from service name to result: entries in insertion order. */
  type Checked = seq<(string, CheckResult)>

  datatype Response = Response(status: nat, contentType: string, body: string)

  const ContentType: string := "text/xml"

  // The fixed text of `PINGDOM_TEMPLATE` around its two fields.
  const DocumentHead: string :=
    "<?xml version=\"1.0\" encoding=\"UTF-8\"?>\n<pingdom_http_custom_check>\n    <status>"
  const DocumentMiddle: string := "</status>\n    <response_time>"
  const DocumentTail: string := "</response_time>\n</pingdom_http_custom_check>\n"

  /** `PINGDOM_TEMPLATE.format(status=status, response_time=responseTime)`. */
  function Document(status: string, responseTime: string): string {
    DocumentHead + status + DocumentMiddle + responseTime + DocumentTail
  }

  /** The document starts with the fixed head of the template, and the status
      and the time sit between its fixed parts, where they can be read back
      by position. */
  lemma DocumentFields(status: string, responseTime: string)
    ensures var r, m := Document(status, responseTime), |DocumentHead| + |status|;
            && |r| == m + |DocumentMiddle| + |responseTime| + |DocumentTail|
            && r[..|DocumentHead|] == DocumentHead
            && r[|DocumentHead|..m] == status
            && r[m..m + |DocumentMiddle|] == DocumentMiddle
            && r[m + |DocumentMiddle|..m + |DocumentMiddle| + |responseTime|] == responseTime
            && r[|r| - |DocumentTail|..] == DocumentTail
  {
    var r, m := Document(status, responseTime), |DocumentHead| + |status|;
    assert r == DocumentHead + status + DocumentMiddle + responseTime + DocumentTail;
  }

  /** `COMMENT_TEMPLATE.format(comment=message)`: the message inside an XML
      comment, on a line of its own. */
  function Comment(message: string): (r: string)
    ensures |r| == |message| + 8
    ensures r[..4] == "<!--" && r[4..|r| - 4] == message && r[|r| - 4..] == "-->\n"
  {
    "<!--" + message + "-->\n"
  }

  // ---------------------------------------------------------------------------
  // The ordered dictionary

  predicate DistinctKeys(d: Checked) {
    forall i, j :: 0 <= i < j < |d| ==> d[i].0 != d[j].0
  }

  function KeySet(d: Checked): set<string>
    decreases |d|
  {
    if |d| == 0 then {} else {d[0].0} + KeySet(d[1..])
  }

  function Lookup(d: Checked, key: string): Option<CheckResult>
    decreases |d|
  {
    if |d| == 0 then None
    else if d[0].0 == key then Some(d[0].1)
    else Lookup(d[1..], key)
  }

  lemma {:induction false} KeySetIndex(d: Checked, key: string) returns (i: nat)
    requires key in KeySet(d)
    ensures i < |d| && d[i].0 == key
    decreases |d|
  {
    if d[0].0 == key {
      i := 0;
    } else {
      var j := KeySetIndex(d[1..], key);
      i := j + 1;
    }
  }

  lemma {:induction false} IndexInKeySet(d: Checked, i: nat)
    requires i < |d|
    ensures d[i].0 in KeySet(d)
    decreases i
  {
    if i > 0 {
      IndexInKeySet(d[1..], i - 1);
    }
  }

  lemma {:induction false} LookupFound(d: Checked, i: nat)
    requires DistinctKeys(d)
    requires i < |d|
    ensures Lookup(d, d[i].0) == Some(d[i].1)
    decreases |d|
  {
    if i > 0 {
      LookupFound(d[1..], i - 1);
    }
  }

  lemma {:induction false} LookupEntry(d: Checked, key: string) returns (i: nat)
    requires Lookup(d, key).Some?
    ensures i < |d| && d[i] == (key, Lookup(d, key).value)
    decreases |d|
  {
    if d[0].0 == key {
      i := 0;
    } else {
      var j := LookupEntry(d[1..], key);
      i := j + 1;
    }
  }

  lemma {:induction false} LookupMissing(d: Checked, key: string)
    requires key !in KeySet(d)
    ensures Lookup(d, key) == None
    decreases |d|
  {
    if |d| > 0 {
      LookupMissing(d[1..], key);
    }
  }

  lemma {:induction false} KeySetExcludes(d: Checked, key: string)
    requires forall i :: 0 <= i < |d| ==> d[i].0 != key
    ensures key !in KeySet(d)
    decreases |d|
  {
    if |d| > 0 {
      KeySetExcludes(d[1..], key);
    }
  }

  /** `d[key] = value`: an existing key keeps its place and gets the new
      value, a new key goes at the end; no other entry changes. */
  function Put(d: Checked, key: string, value: CheckResult): (r: Checked)
    requires DistinctKeys(d)
    ensures DistinctKeys(r)
    ensures KeySet(r) == KeySet(d) + {key}
    ensures Lookup(r, key) == Some(value)
    ensures forall k :: k != key ==> Lookup(r, k) == Lookup(d, k)
    ensures |r| == if key in KeySet(d) then |d| else |d| + 1
    ensures key !in KeySet(d) ==> r == d + [(key, value)]
    ensures forall i :: 0 <= i < |d| && d[i].0 != key ==> r[i] == d[i]
    decreases |d|
  {
    if |d| == 0 then [(key, value)]
    else if d[0].0 == key then
      var r := [(key, value)] + d[1..];
      assert r[1..] == d[1..];
      KeySetExcludes(d[1..], key);
      r
    else
      var rest := Put(d[1..], key, value);
      PutBehind(d, key, value, rest);
      [d[0]] + rest
  }

  /** The step of `Put` past a first entry that holds another key: putting
      the first entry back in front of the updated tail gives the updated
      dictionary. */
  lemma PutBehind(d: Checked, key: string, value: CheckResult, rest: Checked)
    requires |d| > 0 && DistinctKeys(d) && d[0].0 != key
    requires DistinctKeys(rest)
    requires KeySet(rest) == KeySet(d[1..]) + {key}
    requires Lookup(rest, key) == Some(value)
    requires forall k :: k != key ==> Lookup(rest, k) == Lookup(d[1..], k)
    requires |rest| == if key in KeySet(d[1..]) then |d| - 1 else |d|
    requires key !in KeySet(d[1..]) ==> rest == d[1..] + [(key, value)]
    requires forall i :: 0 <= i < |d| - 1 && d[1..][i].0 != key ==> rest[i] == d[1..][i]
    ensures var r := [d[0]] + rest;
            && DistinctKeys(r)
            && KeySet(r) == KeySet(d) + {key}
            && Lookup(r, key) == Some(value)
            && (forall k :: k != key ==> Lookup(r, k) == Lookup(d, k))
            && |r| == (if key in KeySet(d) then |d| else |d| + 1)
            && (key !in KeySet(d) ==> r == d + [(key, value)])
            && (forall i :: 0 <= i < |d| && d[i].0 != key ==> r[i] == d[i])
  {
    var r := [d[0]] + rest;
    assert r[1..] == rest;
    assert d == [d[0]] + d[1..];
    KeySetExcludes(d[1..], d[0].0);
    assert DistinctKeys(r) by {
      forall j | 0 < j < |r| ensures r[0].0 != r[j].0 {
        IndexInKeySet(rest, j - 1);
      }
    }
    forall i | 0 < i < |d| && d[i].0 != key ensures r[i] == d[i] {
      assert d[1..][i - 1] == d[i];
    }
  }

  // ---------------------------------------------------------------------------
  // Checking every service

  /** The names of the services, from the last one backwards. */
  function Names(services: seq<Service>): set<string>
    decreases |services|
  {
    if |services| == 0 then {}
    else Names(services[..|services| - 1]) + {services[|services| - 1].name}
  }

  lemma {:induction false} NamesIndex(services: seq<Service>, name: string) returns (i: nat)
    requires name in Names(services)
    ensures i < |services| && services[i].name == name
    decreases |services|
  {
    var n := |services| - 1;
    if services[n].name == name {
      i := n;
    } else {
      i := NamesIndex(services[..n], name);
    }
  }

  lemma {:induction false} IndexInNames(services: seq<Service>, i: nat)
    requires i < |services|
    ensures services[i].name in Names(services)
    decreases |services|
  {
    var n := |services| - 1;
    if i < n {
      IndexInNames(services[..n], i);
    }
  }

  lemma {:induction false} NamesExclude(services: seq<Service>, name: string)
    requires forall i :: 0 <= i < |services| ==> services[i].name != name
    ensures name !in Names(services)
    decreases |services|
  {
    if |services| > 0 {
      NamesExclude(services[..|services| - 1], name);
    }
  }

  /** No later service overwrites the result of service `i`. */
  predicate IsLastOfName(services: seq<Service>, i: int)
    requires 0 <= i < |services|
  {
    forall j :: i < j < |services| ==> services[j].name != services[i].name
  }

  predicate DistinctNames(services: seq<Service>) {
    forall i, j :: 0 <= i < j < |services| ==> services[i].name != services[j].name
  }

  /** One entry per service, in service order. */
  function Entries(services: seq<Service>): (d: Checked)
    ensures |d| == |services|
    ensures forall i :: 0 <= i < |d| ==> d[i] == (services[i].name, services[i].result)
  {
    seq(|services|, i requires 0 <= i < |services| => (services[i].name, services[i].result))
  }

  /** The dictionary that checking `services` in order builds: each service
      is checked once, and the dictionary has one entry per name, holding the
      result of the last service of that name; with distinct names it is one
      entry per service, in service order. */
  function Collect(services: seq<Service>): (d: Checked)
    ensures DistinctKeys(d)
    ensures KeySet(d) == Names(services)
    ensures |d| <= |services|
    ensures forall i :: 0 <= i < |services| && IsLastOfName(services, i) ==>
              Lookup(d, services[i].name) == Some(services[i].result)
    ensures DistinctNames(services) ==> d == Entries(services)
    decreases |services|
  {
    if |services| == 0 then []
    else
      var n := |services| - 1;
      var before := Collect(services[..n]);
      CollectStep(services, before);
      Put(before, services[n].name, services[n].result)
  }

  /** Checking the last service extends what checking the others built. */
  lemma CollectStep(services: seq<Service>, before: Checked)
    requires |services| > 0
    requires var n := |services| - 1;
             && DistinctKeys(before)
             && KeySet(before) == Names(services[..n])
             && |before| <= n
             && (forall i :: 0 <= i < n && IsLastOfName(services[..n], i) ==>
                   Lookup(before, services[i].name) == Some(services[i].result))
             && (DistinctNames(services[..n]) ==> before == Entries(services[..n]))
    ensures var n := |services| - 1;
            var after := Put(before, services[n].name, services[n].result);
            && DistinctKeys(after)
            && KeySet(after) == Names(services)
            && |after| <= |services|
            && (forall i :: 0 <= i < |services| && IsLastOfName(services, i) ==>
                  Lookup(after, services[i].name) == Some(services[i].result))
            && (DistinctNames(services) ==> after == Entries(services))
  {
    var n := |services| - 1;
    if DistinctNames(services) {
      assert DistinctNames(services[..n]);
    }
    CheckStep(services, n, before);
    assert services[..n + 1] == services;
  }

  /** `for service in services_to_check: checked[service.name] = service().check()`. */
  method CheckServices(services: seq<Service>) returns (checked: Checked)
    ensures checked == Collect(services)
  {
    checked := [];
    var n := 0;
    while n < |services|
      invariant 0 <= n <= |services|
      invariant checked == Collect(services[..n])
    {
      CollectPrefix(services, n);
      checked := Put(checked, services[n].name, services[n].result);
      n := n + 1;
    }
    assert services[..n] == services;
  }

  /** Collecting one more service is one more dictionary assignment. */
  lemma CollectPrefix(services: seq<Service>, n: nat)
    requires n < |services|
    ensures Collect(services[..n + 1])
              == Put(Collect(services[..n]), services[n].name, services[n].result)
  {
    assert services[..n + 1][..n] == services[..n];
  }

  /** One turn of the loop in `CheckServices` keeps its invariant. */
  lemma CheckStep(services: seq<Service>, n: nat, before: Checked)
    requires n < |services|
    requires DistinctKeys(before)
    requires KeySet(before) == Names(services[..n])
    requires forall i :: 0 <= i < n && IsLastOfName(services[..n], i) ==>
               Lookup(before, services[i].name) == Some(services[i].result)
    ensures var after := Put(before, services[n].name, services[n].result);
            && KeySet(after) == Names(services[..n + 1])
            && (forall i :: 0 <= i < n + 1 && IsLastOfName(services[..n + 1], i) ==>
                  Lookup(after, services[i].name) == Some(services[i].result))
            && (DistinctNames(services) && before == Entries(services[..n]) ==>
                  after == Entries(services[..n + 1]))
  {
    var s := services[n];
    assert services[..n + 1][..n] == services[..n];
    ExtendLastOfName(services, n);
    if DistinctNames(services) {
      NamesExclude(services[..n], s.name);
      assert Entries(services[..n + 1]) == Entries(services[..n]) + [(s.name, s.result)];
    }
  }

  /** Service `i` that is last of its name among the first `n + 1` services
      is service `n`, or was already last among the first `n`. */
  lemma ExtendLastOfName(services: seq<Service>, n: nat)
    requires n < |services|
    ensures forall i :: 0 <= i < n && IsLastOfName(services[..n + 1], i) ==>
              IsLastOfName(services[..n], i) && services[i].name != services[n].name
  {
    forall i | 0 <= i < n && IsLastOfName(services[..n + 1], i)
      ensures IsLastOfName(services[..n], i) && services[i].name != services[n].name
    {
      assert services[..n + 1][n].name != services[..n + 1][i].name;
      forall j | i < j < n ensures services[..n][j].name != services[..n][i].name {
        assert services[..n + 1][j].name != services[..n + 1][i].name;
      }
    }
  }

  // ---------------------------------------------------------------------------
  // The response

  predicate AllOk(checked: Checked) {
    forall i :: 0 <= i < |checked| ==> checked[i].1.ok
  }

  /** `filter(lambda x: x[0] is False, checked.values())`, messages only. */
  function FailureMessages(checked: Checked): (msgs: seq<string>)
    ensures |msgs| <= |checked|
    ensures AllOk(checked) <==> msgs == []
    decreases |checked|
  {
    if |checked| == 0 then []
    else
      (if !checked[0].1.ok then [checked[0].1.message] else []) + FailureMessages(checked[1..])
  }

  function Comments(messages: seq<string>): string
    decreases |messages|
  {
    if |messages| == 0 then "" else Comment(messages[0]) + Comments(messages[1..])
  }

  /** The response built from the collected results. */
  function Respond(checked: Checked, responseTime: string): (r: Response)
    ensures r.contentType == ContentType
    ensures r.status == 200 <==> AllOk(checked)
    ensures r.status == 200 || r.status == 500
    ensures r.status == 200 ==> r.body == Document("OK", responseTime)
    ensures r.status == 500 ==>
              r.body == Document("FALSE", responseTime) + Comments(FailureMessages(checked))
              && FailureMessages(checked) != []
  {
    if AllOk(checked) then Response(200, ContentType, Document("OK", responseTime))
    else
      Response(500, ContentType,
               Document("FALSE", responseTime) + Comments(FailureMessages(checked)))
  }

  /** The `pingdom` view. `responseTime` is the elapsed time already formatted
      with three decimals. */
  method Pingdom(services: seq<Service>, responseTime: string) returns (r: Response)
    ensures r.status == 200 <==>
              forall i :: 0 <= i < |services| && IsLastOfName(services, i) ==> services[i].result.ok
    ensures r.status == 200 || r.status == 500
    ensures r.contentType == ContentType
    ensures DistinctNames(services) ==>
              (r.status == 200 <==> forall i :: 0 <= i < |services| ==> services[i].result.ok)
    ensures r == Respond(Collect(services), responseTime)
  {
    var checked := CheckServices(services);
    r := Respond(checked, responseTime);
    if AllOk(checked) {
      forall i | 0 <= i < |services| && IsLastOfName(services, i)
        ensures services[i].result.ok
      {
        var k := LookupEntry(checked, services[i].name);
      }
    } else {
      var k :| 0 <= k < |checked| && !checked[k].1.ok;
      IndexInKeySet(checked, k);
      var i := NamesIndex(services, checked[k].0);
      var last := LastOfName(services, i);
      LookupFound(checked, k);
      assert !services[last].result.ok;
    }
    if DistinctNames(services) {
      forall i | 0 <= i < |services| ensures IsLastOfName(services, i) {
      }
    }
  }

  /** The last service with the same name as service `i`. */
  lemma LastOfName(services: seq<Service>, i: nat) returns (last: nat)
    requires i < |services|
    ensures i <= last < |services|
    ensures services[last].name == services[i].name
    ensures IsLastOfName(services, last)
    decreases |services| - i
  {
    if IsLastOfName(services, i) {
      last := i;
    } else {
      var j :| i < j < |services| && services[j].name == services[i].name;
      last := LastOfName(services, j);
    }
  }

  // ---------------------------------------------------------------------------
  // One comment per failed check, in check order

  lemma {:induction false} FailureMessagesConcat(a: Checked, b: Checked)
    ensures FailureMessages(a + b) == FailureMessages(a) + FailureMessages(b)
    decreases |a|
  {
    if |a| > 0 {
      assert (a + b)[0] == a[0];
      assert (a + b)[1..] == a[1..] + b;
      FailureMessagesConcat(a[1..], b);
    } else {
      assert a + b == b;
    }
  }

  /** The failed check at position `i` contributes the comment at position
      "number of failures before `i`"; later failures come later. */
  lemma FailureMessageAt(checked: Checked, i: nat)
    requires i < |checked| && !checked[i].1.ok
    ensures var rank := |FailureMessages(checked[..i])|;
            rank < |FailureMessages(checked)|
            && FailureMessages(checked)[rank] == checked[i].1.message
            && |FailureMessages(checked[..i + 1])| == rank + 1
  {
    assert checked == checked[..i] + checked[i..];
    FailureMessagesConcat(checked[..i], checked[i..]);
    assert checked[i..][0] == checked[i];
    assert checked[..i + 1] == checked[..i] + [checked[i]];
    FailureMessagesConcat(checked[..i], [checked[i]]);
    assert [checked[i]][1..] == [];
  }

  /** The comment positions grow with the check positions. */
  lemma FailureRankMonotone(checked: Checked, i: nat, j: nat)
    requires i <= j <= |checked|
    ensures |FailureMessages(checked[..i])| <= |FailureMessages(checked[..j])|
  {
    assert checked[..j] == checked[..i] + checked[i..j];
    FailureMessagesConcat(checked[..i], checked[i..j]);
  }
}
