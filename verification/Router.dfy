/** Topic filters and dispatch of paho/router.go (section 4.7 of MQTT 5.0). */
module Router {
  import opened Basics

  type Topic = seq<byte>

  const SLASH: byte := 47
  const HASH: Topic := [35]
  const PLUS: Topic := [43]
  const SHARE: Topic := [36, 115, 104, 97, 114, 101]

  // ---- Levels ----

  /** strings.Split at every slash. */
  function Split(s: Topic): (levels: seq<Topic>)
    ensures |levels| >= 1
  {
    if s == [] then [[]]
    else
      var rest := Split(s[1..]);
      if s[0] == SLASH then [[]] + rest else [[s[0]] + rest[0]] + rest[1..]
  }

  function Join(levels: seq<Topic>): Topic
    requires levels != []
  {
    if |levels| == 1 then levels[0] else levels[0] + [SLASH] + Join(levels[1..])
  }

  lemma {:induction false} JoinSplit(s: Topic)
    ensures Join(Split(s)) == s
    ensures forall i | 0 <= i < |Split(s)| :: SLASH !in Split(s)[i]
    decreases |s|
  {
    if s != [] {
      JoinSplit(s[1..]);
      var rest := Split(s[1..]);
      if s[0] != SLASH {
        if |rest| > 1 {
          assert Split(s)[1..] == rest[1..];
          assert ([s[0]] + rest[0]) + [SLASH] + Join(rest[1..]) == [s[0]] + (rest[0] + [SLASH] + Join(rest[1..]));
        }
        assert [s[0]] + s[1..] == s;
      } else {
        assert Split(s)[1..] == rest;
        assert [] + [SLASH] + s[1..] == s;
      }
    }
  }

  /** A slash-free level in front of a slash becomes the first level. */
  lemma {:induction false} SplitFirst(level: Topic, rest: Topic)
    requires SLASH !in level
    ensures Split(level + [SLASH] + rest) == [level] + Split(rest)
    decreases |level|
  {
    var s := level + [SLASH] + rest;
    if level == [] {
      assert s[1..] == rest;
    } else {
      SplitFirst(level[1..], rest);
      assert s[1..] == level[1..] + [SLASH] + rest;
      assert [level[0]] + level[1..] == level;
      assert ([level[1..]] + Split(rest))[1..] == Split(rest);
    }
  }

  lemma {:induction false} SplitNoSlash(level: Topic)
    requires SLASH !in level
    ensures Split(level) == [level]
    decreases |level|
  {
    if level != [] {
      SplitNoSlash(level[1..]);
      assert [level[0]] + level[1..] == level;
    }
  }

  /** Splitting is the inverse of joining slash-free levels. */
  lemma {:induction false} SplitJoin(levels: seq<Topic>)
    requires levels != [] && forall i | 0 <= i < |levels| :: SLASH !in levels[i]
    ensures Split(Join(levels)) == levels
    decreases |levels|
  {
    if |levels| == 1 {
      SplitNoSlash(levels[0]);
    } else {
      SplitJoin(levels[1..]);
      SplitFirst(levels[0], Join(levels[1..]));
    }
  }

  /** None is the slice expression out of range: a filter that starts with $share and has no slash. */
  function RouteSplit(route: Topic): Option<seq<Topic>> {
    if route == [] then Some([])
    else if SHARE <= route then
      if |Split(route)| < 2 then None else Some(Split(route)[2..])
    else Some(Split(route))
  }

  function TopicSplit(topic: Topic): seq<Topic> {
    if topic == [] then [] else Split(topic)
  }

  // ---- Matching ----

  predicate MatchDeep(route: seq<Topic>, topic: seq<Topic>) {
    if route == [] then topic == []
    else if topic == [] then route[0] == HASH
    else if route[0] == HASH then true
    else (route[0] == PLUS || route[0] == topic[0]) && MatchDeep(route[1..], topic[1..])
  }

  predicate LevelMatches(filter: Topic, level: Topic) {
    filter == PLUS || filter == level
  }

  /** The first level that is the multi-level wildcard; the length when there is none. */
  function FirstHash(route: seq<Topic>): (k: nat)
    ensures k <= |route| && (k < |route| ==> route[k] == HASH)
    ensures forall i | 0 <= i < k :: route[i] != HASH
  {
    if route == [] || route[0] == HASH then 0 else 1 + FirstHash(route[1..])
  }

  /** The filter rule: the levels before the first # match one by one, with + for any level. Without
      a # there are no other levels. */
  ghost predicate Matches(route: seq<Topic>, topic: seq<Topic>) {
    var k := FirstHash(route);
    && (if k < |route| then k <= |topic| else k == |topic|)
    && forall i | 0 <= i < k :: LevelMatches(route[i], topic[i])
  }

  lemma {:induction false} MatchDeepCorrect(route: seq<Topic>, topic: seq<Topic>)
    ensures MatchDeep(route, topic) <==> Matches(route, topic)
    decreases |route|
  {
    if route != [] && topic != [] && route[0] != HASH {
      MatchDeepCorrect(route[1..], topic[1..]);
      var k := FirstHash(route);
      assert FirstHash(route[1..]) == k - 1;
      if Matches(route, topic) {
        assert LevelMatches(route[0], topic[0]);
        forall i | 0 <= i < k - 1
          ensures LevelMatches(route[1..][i], topic[1..][i])
        {
          assert LevelMatches(route[i + 1], topic[i + 1]);
        }
      }
      if Matches(route[1..], topic[1..]) && LevelMatches(route[0], topic[0]) {
        forall i | 0 <= i < k
          ensures LevelMatches(route[i], topic[i])
        {
          assert i > 0 ==> LevelMatches(route[1..][i - 1], topic[1..][i - 1]);
        }
      }
    }
  }

  /** Comparing a filter with a topic does not panic. */
  predicate Comparable(route: Topic, topic: Topic) {
    route == topic || RouteSplit(route).Some?
  }

  /** match: equal strings, or the filter includes the topic. */
  predicate Match(route: Topic, topic: Topic)
    requires Comparable(route, topic)
  {
    route == topic || MatchDeep(RouteSplit(route).value, TopicSplit(topic))
  }

  /** A topic is matched by itself as a filter. */
  lemma MatchesItself(topic: Topic)
    ensures Comparable(topic, topic) && Match(topic, topic)
  {}

  lemma {:induction false} OneLevel(s: Topic)
    ensures |Split(s)| == 1 <==> SLASH !in s
    decreases |s|
  {
    if s != [] {
      OneLevel(s[1..]);
      assert s == [s[0]] + s[1..];
    }
  }

  /** Splitting a filter panics exactly when it starts with $share and has no slash. */
  lemma SplitPanicsExactly(route: Topic)
    ensures RouteSplit(route).None? <==> SHARE <= route && SLASH !in route
  {
    OneLevel(route);
  }

  /** No topic, as after an unknown alias, is matched only by no filter, and by one whose levels are none or start
      with #. */
  lemma EmptyTopicMatches(route: Topic)
    requires Comparable(route, [])
    ensures Match(route, []) <==>
      route == [] || RouteSplit(route).value == [] || RouteSplit(route).value[0] == HASH
  {}

  function Shared(group: Topic, filter: Topic): Topic {
    SHARE + [SLASH] + (group + [SLASH] + filter)
  }

  lemma DropTwo(a: Topic, b: Topic, rest: seq<Topic>)
    ensures ([a] + ([b] + rest))[2..] == rest
  {}

  lemma SharedSplit(group: Topic, filter: Topic)
    requires SLASH !in group
    ensures RouteSplit(Shared(group, filter)) == Some(Split(filter))
  {
    hide Split;
    SplitFirst(SHARE, group + [SLASH] + filter);
    SplitFirst(group, filter);
    assert SHARE <= Shared(group, filter);
    DropTwo(SHARE, group, Split(filter));
  }

  /** A shared filter is compared by the same levels as the filter it shares exactly when that one is
      not empty and not itself written as a shared filter. */
  lemma SharedLevelsExactly(group: Topic, filter: Topic)
    requires SLASH !in group
    ensures RouteSplit(Shared(group, filter)) == RouteSplit(filter) <==> filter != [] && !(SHARE <= filter)
  {
    SharedSplit(group, filter);
  }

  /** Such a filter includes the same topics, shared or not, and by the filter rule of its own levels. */
  lemma SharedMatches(group: Topic, filter: Topic, topic: Topic)
    requires SLASH !in group && filter != [] && !(SHARE <= filter)
    ensures RouteSplit(Shared(group, filter)).Some?
    ensures MatchDeep(RouteSplit(Shared(group, filter)).value, TopicSplit(topic))
       <==> MatchDeep(RouteSplit(filter).value, TopicSplit(topic))
    ensures MatchDeep(RouteSplit(filter).value, TopicSplit(topic)) <==> Matches(Split(filter), TopicSplit(topic))
  {
    SharedSplit(group, filter);
    MatchDeepCorrect(Split(filter), TopicSplit(topic));
  }

  /** A filter written from levels without slashes matches a topic written from levels exactly by the
      filter rule (a topic is not empty, and a filter of this kind does not start with $share). */
  lemma FilterRule(filter: seq<Topic>, topic: seq<Topic>)
    requires filter != [] && topic != []
    requires forall i | 0 <= i < |filter| :: SLASH !in filter[i]
    requires forall i | 0 <= i < |topic| :: SLASH !in topic[i]
    requires Join(filter) != [] && Join(topic) != [] && !(SHARE <= Join(filter))
    ensures Match(Join(filter), Join(topic)) <==> Matches(filter, topic)
  {
    SplitJoin(filter);
    SplitJoin(topic);
    MatchDeepCorrect(filter, topic);
    if Join(filter) == Join(topic) {
      assert filter == topic;
    }
  }

  // ---- Dispatch ----

  type Handler = nat

  /** The handlers of some filters, filter by filter. */
  function HandlersOf(subscriptions: map<Topic, seq<Handler>>, routes: seq<Topic>): seq<Handler> {
    if routes == [] then []
    else
      HandlersOf(subscriptions, routes[..|routes| - 1]) +
      (if routes[|routes| - 1] in subscriptions then subscriptions[routes[|routes| - 1]] else [])
  }

  /** These are all the filters in a set that match a topic, each once. */
  ghost predicate MatchingRoutes(routes: seq<Topic>, filters: set<Topic>, topic: Topic) {
    && (forall r | r in filters :: Comparable(r, topic))
    && (forall r | r in filters :: r in routes <==> Match(r, topic))
    && (forall i | 0 <= i < |routes| :: routes[i] in filters)
    && (forall i, j | 0 <= i < j < |routes| :: routes[i] != routes[j])
  }

  lemma MatchingNone(filters: set<Topic>, topic: Topic)
    ensures MatchingRoutes([], filters - filters, topic)
  {}

  lemma MatchingStep(routes: seq<Topic>, filters: set<Topic>, todo: set<Topic>, route: Topic, topic: Topic)
    requires MatchingRoutes(routes, filters - todo, topic)
    requires route in todo && todo <= filters && Comparable(route, topic)
    ensures MatchingRoutes(if Match(route, topic) then routes + [route] else routes, filters - (todo - {route}), topic)
  {
    hide Match, Comparable;
    var more := if Match(route, topic) then routes + [route] else routes;
    assert forall i | 0 <= i < |routes| :: routes[i] in filters - todo;
    assert filters - (todo - {route}) == (filters - todo) + {route};
    assert forall r | r != route :: r in more <==> r in routes;
    assert route in more <==> Match(route, topic);
  }

  lemma HandlersStep(subscriptions: map<Topic, seq<Handler>>, routes: seq<Topic>, route: Topic)
    requires route in subscriptions
    ensures HandlersOf(subscriptions, routes + [route]) == HandlersOf(subscriptions, routes) + subscriptions[route]
  {
    assert (routes + [route])[..|routes|] == routes;
  }

  /** How often a handler is registered for some filters. */
  function Registrations(subscriptions: map<Topic, seq<Handler>>, routes: seq<Topic>, h: Handler): nat {
    if routes == [] then 0
    else
      (if routes[0] in subscriptions then multiset(subscriptions[routes[0]])[h] else 0)
      + Registrations(subscriptions, routes[1..], h)
  }

  lemma {:induction false} RegistrationsAppend(
      subscriptions: map<Topic, seq<Handler>>, routes: seq<Topic>, route: Topic, h: Handler)
    ensures Registrations(subscriptions, routes + [route], h)
         == Registrations(subscriptions, routes, h)
            + if route in subscriptions then multiset(subscriptions[route])[h] else 0
    decreases |routes|
  {
    if routes == [] {
      assert [] + [route] == [route] && [route][1..] == [];
    } else {
      assert (routes + [route])[1..] == routes[1..] + [route];
      RegistrationsAppend(subscriptions, routes[1..], route, h);
    }
  }

  /** Every handler of the filters is called as often as it is registered for them. */
  lemma {:induction false} CalledAsRegistered(subscriptions: map<Topic, seq<Handler>>, routes: seq<Topic>, h: Handler)
    ensures multiset(HandlersOf(subscriptions, routes))[h] == Registrations(subscriptions, routes, h)
    decreases |routes|
  {
    if routes != [] {
      var n := |routes| - 1;
      CalledAsRegistered(subscriptions, routes[..n], h);
      RegistrationsAppend(subscriptions, routes[..n], routes[n], h);
      assert routes[..n] + [routes[n]] == routes;
    }
  }

  /** The topic Route dispatches on, and the aliases afterwards: a topic with an alias defines it, an
      alias on its own stands for the topic it was last given, and an unknown alias for none. */
  function Resolve(aliases: map<uint16, Topic>, topic: Topic, alias: Option<uint16>): (map<uint16, Topic>, Topic) {
    match alias
    case None => (aliases, topic)
    case Some(a) =>
      var known := if topic != [] then aliases[a := topic] else aliases;
      (known, if a in known then known[a] else [])
  }

  class StandardRouter {
    var defaultHandler: Option<Handler>
    var subscriptions: map<Topic, seq<Handler>>
    var aliases: map<uint16, Topic>

    constructor ()
      ensures defaultHandler == None && subscriptions == map[] && aliases == map[]
    {
      defaultHandler, subscriptions, aliases := None, map[], map[];
    }

    method RegisterHandler(topic: Topic, h: Handler)
      modifies `subscriptions
      ensures subscriptions == old(subscriptions)[topic :=
                (if topic in old(subscriptions) then old(subscriptions)[topic] else []) + [h]]
    {
      var hs := if topic in subscriptions then subscriptions[topic] else [];
      subscriptions := subscriptions[topic := hs + [h]];
    }

    method UnregisterHandler(topic: Topic)
      modifies `subscriptions
      ensures subscriptions == old(subscriptions) - {topic}
    {
      subscriptions := subscriptions - {topic};
    }

    /** Every handler of every matching filter is called, once for each registration, in whatever order
        the map is iterated; the default handler only when no other was. It panics exactly when a registered
        filter other than the topic itself starts with $share and has no slash. */
    method Route(topic: Topic, alias: Option<uint16>)
      returns (calls: seq<Handler>, panics: bool, ghost routes: seq<Topic>)
      modifies `aliases
      ensures var (known, resolved) := Resolve(old(aliases), topic, alias);
        && aliases == known
        && (panics <==> exists r :: r in subscriptions && !Comparable(r, resolved))
        && (!panics ==>
              && MatchingRoutes(routes, subscriptions.Keys, resolved)
              && var hs := HandlersOf(subscriptions, routes);
                 calls == if hs == [] && defaultHandler.Some? then [defaultHandler.value] else hs)
    {
      var t := topic;
      if alias.Some? {
        t := [];
        if topic != [] {
          aliases := aliases[alias.value := topic];
        }
        if alias.value in aliases {
          t := aliases[alias.value];
        }
      }
      hide MatchingRoutes, Match, Comparable;
      calls, panics, routes := [], false, [];
      MatchingNone(subscriptions.Keys, t);
      var todo := subscriptions.Keys;
      while todo != {}
        invariant todo <= subscriptions.Keys
        invariant MatchingRoutes(routes, subscriptions.Keys - todo, t)
        invariant forall r | r in subscriptions && r !in todo :: Comparable(r, t)
        invariant calls == HandlersOf(subscriptions, routes)
        modifies {}
        decreases todo
      {
        var route :| route in todo;
        if !Comparable(route, t) {
          panics := true;
          return;
        }
        MatchingStep(routes, subscriptions.Keys, todo, route, t);
        if Match(route, t) {
          calls := calls + subscriptions[route];
          HandlersStep(subscriptions, routes, route);
          routes := routes + [route];
        }
        todo := todo - {route};
      }
      assert subscriptions.Keys - todo == subscriptions.Keys;
      if calls == [] && defaultHandler.Some? {
        calls := [defaultHandler.value];
      }
    }
  }
}
