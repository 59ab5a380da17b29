/** Requests, their content-addressed block keys, and the KV value of each token. */
module PrefixKeys {
  import opened Modular

  datatype Option<T> = None | Some(value: T)

  /** A model's layers, with the bytes of KV that each keeps of one token. */
  datatype Model = Model(id: nat, layers: nat, tokenBytes: seq<nat>)
  {
    ghost predicate Valid()
    {
      layers > 0 && |tokenBytes| == layers && forall l :: 0 <= l < layers ==> tokenBytes[l] > 0
    }

    function TokenBytes(layer: nat): nat
    {
      if layer < |tokenBytes| then tokenBytes[layer] else 0
    }
  }

  datatype Request = Request(
    id: nat, model: Model, salt: nat, arrival: nat,
    promptTokens: nat, outputTokens: nat, tokens: Option<seq<nat>>)
  {
    /** The prompt and all but the last output token are fed to the model. */
    function Lifetime(): int
    {
      promptTokens + outputTokens - 1
    }

    ghost predicate Valid()
    {
      && model.Valid() && promptTokens > 0 && outputTokens > 0
      && (tokens.Some? ==> |tokens.value| == Lifetime())
    }
  }

  /** SHA-256 is taken as injective: a digest stands for what was hashed. */
  datatype Key =
    | Root(model: Model, salt: nat, blockTokens: nat)
    | Chain(parent: Key, tokens: seq<nat>)

  ghost function KeyModel(key: Key): Model
  {
    match key
    case Root(model, _, _) => model
    case Chain(parent, _) => KeyModel(parent)
  }

  ghost function KeySalt(key: Key): nat
  {
    match key
    case Root(_, salt, _) => salt
    case Chain(parent, _) => KeySalt(parent)
  }

  /** All tokens up to and including the keyed block. */
  ghost function KeyTokens(key: Key): seq<nat>
  {
    match key
    case Root(_, _, _) => []
    case Chain(parent, tokens) => KeyTokens(parent) + tokens
  }

  /** The tokens in n whole blocks. */
  ghost function Span(n: nat, blockTokens: nat): nat
  {
    if n == 0 then 0 else Span(n - 1, blockTokens) + blockTokens
  }

  lemma {:induction false} SpanIs(n: nat, blockTokens: nat)
    ensures Span(n, blockTokens) == n * blockTokens
  {
    if n > 0 {
      SpanIs(n - 1, blockTokens);
      assert n * blockTokens == (n - 1) * blockTokens + blockTokens;
    }
  }

  ghost function Parent(request: Request, blockTokens: nat, count: nat): Key
    requires request.tokens.Some?
    requires Span(count, blockTokens) <= |request.tokens.value|
  {
    if count == 0 then Root(request.model, request.salt, blockTokens)
    else
      Chain(Parent(request, blockTokens, count - 1),
            request.tokens.value[Span(count - 1, blockTokens)..Span(count, blockTokens)])
  }

  lemma {:induction false} ParentMeans(request: Request, blockTokens: nat, count: nat)
    requires request.tokens.Some?
    requires Span(count, blockTokens) <= |request.tokens.value|
    ensures KeyTokens(Parent(request, blockTokens, count)) == request.tokens.value[..Span(count, blockTokens)]
    ensures KeyModel(Parent(request, blockTokens, count)) == request.model
    ensures KeySalt(Parent(request, blockTokens, count)) == request.salt
  {
    if count > 0 {
      ParentMeans(request, blockTokens, count - 1);
    }
  }

  /** Whole prompt blocks, by Euclidean division. */
  lemma WholeBlocks(promptTokens: nat, blockTokens: nat, k: nat)
    requires blockTokens > 0
    ensures k < promptTokens / blockTokens <==> Span(k + 1, blockTokens) <= promptTokens
    ensures Span(promptTokens / blockTokens, blockTokens) <= promptTokens
  {
    var q, r := promptTokens / blockTokens, promptTokens % blockTokens;
    assert promptTokens == q * blockTokens + r;
    SpanIs(q, blockTokens);
    SpanIs(k + 1, blockTokens);
    MultiplesOrdered(q, k + 1, blockTokens);
    MultiplesOrdered(k + 1, q, blockTokens);
  }

  /** The keys of the first n blocks. */
  ghost function KeysUpTo(request: Request, blockTokens: nat, n: nat): (keys: seq<Key>)
    requires request.tokens.Some? && Span(n, blockTokens) <= |request.tokens.value|
    ensures |keys| == n
  {
    if n == 0 then []
    else KeysUpTo(request, blockTokens, n - 1) + [Parent(request, blockTokens, n)]
  }

  ghost predicate KeysOf(request: Request, blockTokens: nat, keys: seq<Key>)
  {
    && request.tokens.Some?
    && Span(|keys|, blockTokens) <= |request.tokens.value|
    && keys == KeysUpTo(request, blockTokens, |keys|)
  }

  /** The k-th key chains the first k + 1 blocks. */
  lemma {:induction false} KeyAt(request: Request, blockTokens: nat, n: nat, k: nat)
    requires request.tokens.Some? && Span(n, blockTokens) <= |request.tokens.value| && k < n
    ensures Span(k + 1, blockTokens) <= |request.tokens.value|
    ensures KeysUpTo(request, blockTokens, n)[k] == Parent(request, blockTokens, k + 1)
  {
    if k < n - 1 {
      KeyAt(request, blockTokens, n - 1, k);
    }
  }

  /** A full prompt is cut into whole blocks only. */
  ghost function KeysFor(request: Request, blockTokens: nat): (keys: seq<Key>)
    requires request.Valid() && blockTokens > 0
  {
    if request.tokens.None? then []
    else
      WholeBlocks(request.promptTokens, blockTokens, 0);
      KeysUpTo(request, blockTokens, request.promptTokens / blockTokens)
  }

  /** The chained keys of the full blocks of the prompt; none without token identities. */
  method BlockKeys(request: Request, blockTokens: nat) returns (keys: seq<Key>)
    requires request.Valid() && blockTokens > 0
    ensures request.tokens.None? ==> keys == []
    ensures request.tokens.Some? ==> KeysOf(request, blockTokens, keys)
    ensures keys == KeysFor(request, blockTokens)
  {
    keys := [];
    if request.tokens.None? {
      return;
    }
    var parent := Root(request.model, request.salt, blockTokens);
    var begin := 0;
    WholeBlocks(request.promptTokens, blockTokens, 0);
    while begin + blockTokens <= request.promptTokens
      invariant begin == Span(|keys|, blockTokens) <= |request.tokens.value|
      invariant |keys| <= request.promptTokens / blockTokens
      invariant parent == Parent(request, blockTokens, |keys|)
      invariant keys == KeysUpTo(request, blockTokens, |keys|)
    {
      WholeBlocks(request.promptTokens, blockTokens, |keys|);
      parent := NextKey(request, blockTokens, parent, begin, |keys|);
      keys := keys + [parent];
      begin := begin + blockTokens;
    }
    WholeBlocks(request.promptTokens, blockTokens, |keys|);
  }

  /** One link of the chain. */
  method NextKey(request: Request, blockTokens: nat, parent: Key, begin: nat, ghost count: nat) returns (key: Key)
    requires request.tokens.Some? && begin + blockTokens <= |request.tokens.value|
    requires begin == Span(count, blockTokens) && parent == Parent(request, blockTokens, count)
    ensures Span(count + 1, blockTokens) == begin + blockTokens
    ensures key == Parent(request, blockTokens, count + 1)
  {
    assert Span(count + 1, blockTokens) == begin + blockTokens;
    key := Chain(parent, request.tokens.value[begin..begin + blockTokens]);
  }

  /** What the KV of one token at one layer is: a function of the whole token prefix
      when the tokens are known, and private to the request otherwise. */
  datatype Content =
    | Shared(model: Model, salt: nat, layer: nat, prefix: seq<nat>)
    | Private(request: nat, layer: nat, position: nat)

  ghost function Upto(tokens: seq<nat>, n: nat): seq<nat>
  {
    if n <= |tokens| then tokens[..n] else tokens
  }

  ghost function KvOf(request: Request, layer: nat, position: nat): Content
  {
    if request.tokens.Some? then Shared(request.model, request.salt, layer, Upto(request.tokens.value, position + 1))
    else Private(request.id, layer, position)
  }

  /** The value that slot w of the block published under a key must hold. */
  ghost function KeyContent(key: Key, layer: nat, blockTokens: nat, w: nat): Content
  {
    var before := |KeyTokens(key)| - blockTokens;
    Shared(KeyModel(key), KeySalt(key), layer,
           if before >= 0 then Upto(KeyTokens(key), before + w + 1) else [])
  }

  /** Equal keys promise equal KV: slot w of block k holds what the request would compute. */
  lemma KeyContentIsKv(request: Request, blockTokens: nat, k: nat, layer: nat, w: nat)
    requires request.tokens.Some?
    requires Span(k + 1, blockTokens) <= |request.tokens.value| && w < blockTokens
    ensures KeyContent(Parent(request, blockTokens, k + 1), layer, blockTokens, w)
            == KvOf(request, layer, Span(k, blockTokens) + w)
  {
    ParentMeans(request, blockTokens, k + 1);
    var tokens, n := request.tokens.value, Span(k, blockTokens) + w + 1;
    assert tokens[..Span(k + 1, blockTokens)][..n] == tokens[..n];
  }
}
