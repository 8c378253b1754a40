/**
 The key under which a function's lease pools are registered (getPoolKey in lease_manager.go).
 A map is rendered over its sorted keys, so that the order in which Go happens to iterate it,
 here the argument `order`, must not matter.
 */
module PoolKeys {
  import opened Sequences
  import opened Text

  datatype Session = Session(id: string, ttl: int, concurrency: int)

  datatype AcquireOption = AcquireOption(
    resourceSpecs: map<string, int>,
    poolLabel: string,
    invokeTag: map<string, string>,
    instanceLabel: string,
    session: Option<Session>,
    enableSessionCtx: bool,
    sessionCtxId: string,
    ringName: string)

  /** An order in which the keys of a map can be visited. */
  ghost predicate Enumerates<V>(order: seq<string>, m: map<string, V>) {
    Distinct(order) && Elems(order) == m.Keys
  }

  /** getMapStr over the sorted keys `keys`: "k:v," for each. */
  function Render(keys: seq<string>, m: map<string, string>): string
    requires forall k :: k in keys ==> k in m
  {
    if keys == [] then "" else keys[0] + ":" + m[keys[0]] + "," + Render(keys[1..], m)
  }

  function MapStr(order: seq<string>, m: map<string, string>): string
    requires forall k :: k in Sort(order) ==> k in m
  {
    Render(Sort(order), m)
  }

  function Decimals(m: map<string, int>): map<string, string> {
    map k | k in m :: Decimal(m[k])
  }

  /** InstanceSessionConfig.ToString; no session renders as nothing. */
  function SessionStr(s: Option<Session>): string {
    if s.None? then ""
    else
      Labelled("sessionID: ", s.value.id, ", sessionTTL:", Decimal(s.value.ttl), ", concurrency:",
               Decimal(s.value.concurrency))
  }

  /** A text and two numbers behind their labels. */
  function Labelled(l1: string, text: string, l2: string, n: string, l3: string, m: string): (r: string)
    ensures |r| > 0
  {
    l1 + text + l2 + " " + n + l3 + " " + m
  }

  lemma LabelledInjective(l1: string, text: string, l2: string, n: string, l3: string, m: string,
                          text': string, n': string, m': string)
    requires Numeric(n) && Numeric(m) && Numeric(n') && Numeric(m')
    requires Labelled(l1, text, l2, n, l3, m) == Labelled(l1, text', l2, n', l3, m')
    ensures text == text' && n == n' && m == m'
  {
    var head, head' := l1 + text + l2, l1 + text' + l2;
    SplitLast(head + [' '] + n + l3, m, head' + [' '] + n' + l3, m', ' ');
    SameSuffix(head + [' '] + n, head' + [' '] + n', l3);
    SplitLast(head, n, head', n', ' ');
    SameSuffix(l1 + text, l1 + text', l2);
    assert text == (l1 + text)[|l1|..];
  }

  function ContextId(o: AcquireOption): string {
    if o.enableSessionCtx then o.sessionCtxId else ""
  }

  function Parts(funcKey: string, o: AcquireOption, specs: string, tags: string): seq<string> {
    [funcKey, specs, o.poolLabel, tags, o.instanceLabel, SessionStr(o.session), ContextId(o), o.ringName]
  }

  ghost function PoolKey(funcKey: string, o: AcquireOption, specOrder: seq<string>, tagOrder: seq<string>): string
    requires Enumerates(specOrder, o.resourceSpecs) && Enumerates(tagOrder, o.invokeTag)
  {
    SortedKeys(specOrder, Decimals(o.resourceSpecs));
    SortedKeys(tagOrder, o.invokeTag);
    Join(Parts(funcKey, o, MapStr(specOrder, Decimals(o.resourceSpecs)), MapStr(tagOrder, o.invokeTag)), '|')
  }

  lemma SortedKeys<V>(order: seq<string>, m: map<string, V>)
    requires Enumerates(order, m)
    ensures Sorted(Sort(order)) && Elems(Sort(order)) == m.Keys
    ensures forall k :: k in Sort(order) <==> k in m
  {
    SortSorts(order);
    assert forall k :: k in Sort(order) <==> k in Elems(Sort(order));
  }

  /** The key does not depend on the order in which the maps are visited. */
  lemma KeyIsCanonical(funcKey: string, o: AcquireOption, s1: seq<string>, t1: seq<string>, s2: seq<string>,
                       t2: seq<string>)
    requires Enumerates(s1, o.resourceSpecs) && Enumerates(t1, o.invokeTag)
    requires Enumerates(s2, o.resourceSpecs) && Enumerates(t2, o.invokeTag)
    ensures PoolKey(funcKey, o, s1, t1) == PoolKey(funcKey, o, s2, t2)
  {
    SortCanonical(s1, s2);
    SortCanonical(t1, t2);
  }

  // ---------------------------------------------------------------------------------------
  // What the key determines
  // ---------------------------------------------------------------------------------------

  /** A rendered map can be read back: keys hold no colon and values no comma. */
  ghost predicate Readable(m: map<string, string>) {
    forall k :: k in m ==> Free(k, ':') && Free(m[k], ',')
  }

  lemma {:induction false} RenderInjective(ks: seq<string>, m: map<string, string>, ks': seq<string>, m': map<string,
                                           string>)
    requires (forall k :: k in ks ==> k in m) && (forall k :: k in ks' ==> k in m')
    requires Readable(m) && Readable(m') && Render(ks, m) == Render(ks', m')
    ensures ks == ks' && forall k :: k in ks ==> m[k] == m'[k]
    decreases |ks|
  {
    assert ks != [] ==> |Render(ks, m)| > 0;
    assert ks' != [] ==> |Render(ks', m')| > 0;
    if ks != [] && ks' != [] {
      var k, k' := ks[0], ks'[0];
      var rest, rest' := Render(ks[1..], m), Render(ks'[1..], m');
      assert Render(ks, m) == k + [':'] + (m[k] + [','] + rest);
      assert Render(ks', m') == k' + [':'] + (m'[k'] + [','] + rest');
      SplitFirst(k, m[k] + [','] + rest, k', m'[k'] + [','] + rest', ':');
      SplitFirst(m[k], rest, m'[k'], rest', ',');
      RenderInjective(ks[1..], m, ks'[1..], m');
      assert ks == [k] + ks[1..] && ks' == [k'] + ks'[1..];
    }
  }

  lemma MapStrInjective(order: seq<string>, m: map<string, string>, order': seq<string>, m': map<string, string>)
    requires Enumerates(order, m) && Enumerates(order', m') && Readable(m) && Readable(m')
    requires (forall k :: k in Sort(order) ==> k in m) && (forall k :: k in Sort(order') ==> k in m')
    ensures MapStr(order, m) == MapStr(order', m') <==> m == m'
  {
    SortedKeys(order, m);
    SortedKeys(order', m');
    if m == m' {
      SortCanonical(order, order');
    }
    if MapStr(order, m) == MapStr(order', m') {
      RenderInjective(Sort(order), m, Sort(order'), m');
    }
  }

  /** The session string determines the session, whatever its ID contains. */
  lemma SessionStrInjective(s: Option<Session>, s': Option<Session>)
    ensures SessionStr(s) == SessionStr(s') <==> s == s'
  {
    hide Labelled, Decimal;
    if s.Some? && s'.Some? && SessionStr(s) == SessionStr(s') {
      DecimalInjective(s.value.concurrency, s'.value.concurrency);
      DecimalInjective(s'.value.concurrency, s.value.concurrency);
      DecimalInjective(s.value.ttl, s'.value.ttl);
      DecimalInjective(s'.value.ttl, s.value.ttl);
      LabelledInjective("sessionID: ", s.value.id, ", sessionTTL:", Decimal(s.value.ttl), ", concurrency:",
                        Decimal(s.value.concurrency), s'.value.id, Decimal(s'.value.ttl),
                        Decimal(s'.value.concurrency));
    }
  }

  lemma SameSuffix(a: string, b: string, suffix: string)
    requires a + suffix == b + suffix
    ensures a == b
  {
    assert a == (a + suffix)[..|a|] && b == (b + suffix)[..|a|];
  }

  /** Fields without the key's separators. */
  ghost predicate Clean(o: AcquireOption) {
    && Readable(o.invokeTag) && Readable(Decimals(o.resourceSpecs))
    && (forall k :: k in o.resourceSpecs ==> Free(k, '|'))
    && (forall k :: k in o.invokeTag ==> Free(k, '|') && Free(o.invokeTag[k], '|'))
    && Free(o.poolLabel, '|') && Free(o.instanceLabel, '|') && Free(o.ringName, '|')
    && (o.session.Some? ==> Free(o.session.value.id, '|')) && (o.enableSessionCtx ==> Free(o.sessionCtxId, '|'))
  }

  /** What makes two requests of a function interchangeable. */
  ghost predicate Agree(o: AcquireOption, o': AcquireOption) {
    && o.resourceSpecs == o'.resourceSpecs && o.poolLabel == o'.poolLabel && o.invokeTag == o'.invokeTag
    && o.instanceLabel == o'.instanceLabel && o.session == o'.session && o.ringName == o'.ringName
    && (if o.enableSessionCtx then o.sessionCtxId else "") == (if o'.enableSessionCtx then o'.sessionCtxId else "")
  }

  lemma {:induction false} RenderFree(keys: seq<string>, m: map<string, string>, sep: char)
    requires forall k :: k in keys ==> k in m && Free(k, sep) && Free(m[k], sep)
    requires sep != ':' && sep != ','
    ensures Free(Render(keys, m), sep)
  {
    if keys != [] {
      assert keys[0] in keys && forall k :: k in keys[1..] ==> k in keys;
      RenderFree(keys[1..], m, sep);
      assert Render(keys, m) == keys[0] + [':'] + m[keys[0]] + [','] + Render(keys[1..], m);
    }
  }

  lemma DecimalsInjective(m: map<string, int>, m': map<string, int>)
    ensures Decimals(m) == Decimals(m') ==> m == m'
    ensures forall k :: k in m ==> Numeric(Decimals(m)[k])
  {
    forall k | k in m ensures Numeric(Decimal(m[k])) {
      DecimalInjective(m[k], m[k]);
    }
    if Decimals(m) == Decimals(m') {
      assert Decimals(m).Keys == m.Keys && Decimals(m').Keys == m'.Keys;
      forall k | k in m ensures m[k] == m'[k] {
        assert Decimals(m)[k] == Decimals(m')[k];
        DecimalInjective(m[k], m'[k]);
      }
    }
  }

  lemma LabelledFree(l1: string, text: string, l2: string, n: string, l3: string, m: string, sep: char)
    requires Free(l1, sep) && Free(text, sep) && Free(l2, sep) && Free(n, sep) && Free(l3, sep) && Free(m, sep)
    requires sep != ' '
    ensures Free(Labelled(l1, text, l2, n, l3, m), sep)
  {
  }

  lemma SessionStrFree(s: Option<Session>)
    requires s.Some? ==> Free(s.value.id, '|')
    ensures Free(SessionStr(s), '|')
  {
    hide Labelled, Decimal;
    if s.Some? {
      DecimalInjective(s.value.ttl, s.value.ttl);
      DecimalInjective(s.value.concurrency, s.value.concurrency);
      LabelledFree("sessionID: ", s.value.id, ", sessionTTL:", Decimal(s.value.ttl), ", concurrency:",
                   Decimal(s.value.concurrency), '|');
    }
  }

  lemma CleanParts(funcKey: string, o: AcquireOption, specOrder: seq<string>, tagOrder: seq<string>)
    requires Clean(o) && Free(funcKey, '|') && Enumerates(specOrder, o.resourceSpecs)
    requires Enumerates(tagOrder, o.invokeTag)
    requires (forall k :: k in Sort(specOrder) ==> k in o.resourceSpecs)
    requires (forall k :: k in Sort(tagOrder) ==> k in o.invokeTag)
    ensures AllFree(Parts(funcKey, o, MapStr(specOrder, Decimals(o.resourceSpecs)), MapStr(tagOrder, o.invokeTag)), '|')
  {
    hide SessionStr;
    DecimalsInjective(o.resourceSpecs, o.resourceSpecs);
    RenderFree(Sort(specOrder), Decimals(o.resourceSpecs), '|');
    RenderFree(Sort(tagOrder), o.invokeTag, '|');
    SessionStrFree(o.session);
  }

  /** Without separators in the fields, requests share a pool exactly if they agree and are of one function. */
  lemma KeyDeterminesThePool(funcKey: string, o: AcquireOption, s: seq<string>, t: seq<string>,
                             funcKey': string, o': AcquireOption, s': seq<string>, t': seq<string>)
    requires Free(funcKey, '|') && Free(funcKey', '|') && Clean(o) && Clean(o')
    requires Enumerates(s, o.resourceSpecs) && Enumerates(t, o.invokeTag)
    requires Enumerates(s', o'.resourceSpecs) && Enumerates(t', o'.invokeTag)
    ensures PoolKey(funcKey, o, s, t) == PoolKey(funcKey', o', s', t') <==> funcKey == funcKey' && Agree(o, o')
  {
    hide SessionStr, MapStr, Enumerates, Readable, Join, Decimals;
    SortedKeys(s, o.resourceSpecs);
    SortedKeys(t, o.invokeTag);
    SortedKeys(s', o'.resourceSpecs);
    SortedKeys(t', o'.invokeTag);
    OrderOfDecimals(s, o.resourceSpecs);
    OrderOfDecimals(s', o'.resourceSpecs);
    MapStrInjective(s, Decimals(o.resourceSpecs), s', Decimals(o'.resourceSpecs));
    MapStrInjective(t, o.invokeTag, t', o'.invokeTag);
    SessionStrInjective(o.session, o'.session);
    DecimalsInjective(o.resourceSpecs, o'.resourceSpecs);
    var a := Parts(funcKey, o, MapStr(s, Decimals(o.resourceSpecs)), MapStr(t, o.invokeTag));
    var b := Parts(funcKey', o', MapStr(s', Decimals(o'.resourceSpecs)), MapStr(t', o'.invokeTag));
    assert a == b <==> funcKey == funcKey' && Agree(o, o') by {
      assert a == b <==> forall i :: 0 <= i < 8 ==> a[i] == b[i];
    }
    if PoolKey(funcKey, o, s, t) == PoolKey(funcKey', o', s', t') {
      CleanParts(funcKey, o, s, t);
      CleanParts(funcKey', o', s', t');
      JoinInjective(a, b, '|');
    }
  }

  /** Requests with different session contexts never share a pool, and the context is ignored where it is off. */
  lemma ContextsDoNotShare(funcKey: string, o: AcquireOption, s: seq<string>, t: seq<string>, id: string, id': string)
    requires Free(funcKey, '|') && Clean(o.(sessionCtxId := id)) && Clean(o.(sessionCtxId := id'))
    requires Enumerates(s, o.resourceSpecs) && Enumerates(t, o.invokeTag)
    ensures PoolKey(funcKey, o.(sessionCtxId := id), s, t) == PoolKey(funcKey, o.(sessionCtxId := id'), s, t)
            <==> id == id' || !o.enableSessionCtx
  {
    KeyDeterminesThePool(funcKey, o.(sessionCtxId := id), s, t, funcKey, o.(sessionCtxId := id'), s, t);
  }

  lemma OrderOfDecimals(order: seq<string>, m: map<string, int>)
    requires Enumerates(order, m)
    ensures Enumerates(order, Decimals(m)) && Decimals(m).Keys == m.Keys
  {
  }

  /** A lease whose ring is switched is retained under a key that no longer names the pool it is in. */
  lemma RingSwitchChangesTheKey(funcKey: string, o: AcquireOption, s: seq<string>, t: seq<string>, ring: string)
    requires Free(funcKey, '|') && Clean(o) && Free(ring, '|')
    requires Enumerates(s, o.resourceSpecs) && Enumerates(t, o.invokeTag)
    ensures PoolKey(funcKey, o.(ringName := ring), s, t) == PoolKey(funcKey, o, s, t) <==> ring == o.ringName
  {
    KeyDeterminesThePool(funcKey, o.(ringName := ring), s, t, funcKey, o, s, t);
  }

  lemma PoolLabelBar()
    ensures Join(["f", "", "|", "", "", "", "", ""], '|') == "f||||||||"
  {
    assert Join(["", "", "", "", ""], '|') == "||||";
    assert Join(["|", "", "", "", "", ""], '|') == "||||||";
  }

  lemma InstanceLabelBar()
    ensures Join(["f", "", "", "", "|", "", "", ""], '|') == "f||||||||"
  {
    assert Join(["|", "", "", ""], '|') == "||||";
  }

  /** With a separator in a field, different requests can share a key. */
  lemma SeparatorsCanCollide()
    ensures exists o: AcquireOption, o': AcquireOption :: Enumerates([], o.resourceSpecs) && Enumerates([], o.invokeTag)
                            && Enumerates([], o'.resourceSpecs) && Enumerates([], o'.invokeTag)
                            && !Agree(o, o') && PoolKey("f", o, [], []) == PoolKey("f", o', [], [])
  {
    hide Join;
    var o := AcquireOption(map[], "|", map[], "", None, false, "", "");
    var o' := o.(poolLabel := "", instanceLabel := "|");
    PoolLabelBar();
    InstanceLabelBar();
    assert Parts("f", o, "", "") == ["f", "", "|", "", "", "", "", ""];
    assert Parts("f", o', "", "") == ["f", "", "", "", "|", "", "", ""];
    assert Enumerates([], o.resourceSpecs) && Enumerates([], o.invokeTag);
  }
}
