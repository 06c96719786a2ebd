/**
 * MLP.__init__ (pertnet/net/pertnet_utils.py, lines 306-335): the layer list
 * Dropout, Linear, nonlinearity repeated once per pair of consecutive
 * dimensions, with the trailing nonlinearity popped.
 */
module Mlp {
  import opened Results

  /** A nonlinearity the name selects, or the name itself when none matches. */
  datatype Activation = ReLU | Tanh | LeakyReLU | ELU | Unrecognised(name: string)

  datatype Layer = Dropout(p: real) | Linear(inDim: nat, outDim: nat) | Nonlinear(a: Activation)

  datatype BuildError =
    | BadDropout(p: real)           // nn.Dropout rejects p outside [0, 1]
    | NotAModule(name: string)      // nn.Sequential rejects a string left in the list

  /** str.upper on one ASCII character. */
  function UpperChar(c: char): (u: char)
    ensures 'a' <= c <= 'z' ==> u as int == c as int - 32
    ensures !('a' <= c <= 'z') ==> u == c
  {
    if 'a' <= c <= 'z' then (c as int - 32) as char else c
  }

  /** str.upper on ASCII text: no lower-case letter is left, and every other character is kept. */
  function Upper(s: string): (u: string)
    ensures |u| == |s|
    ensures forall i :: 0 <= i < |u| ==> !('a' <= u[i] <= 'z')
    ensures forall i :: 0 <= i < |s| && !('a' <= s[i] <= 'z') ==> u[i] == s[i]
    ensures forall i :: 0 <= i < |s| && 'a' <= s[i] <= 'z' ==> u[i] as int == s[i] as int - 32
  {
    seq(|s|, i requires 0 <= i < |s| => UpperChar(s[i]))
  }

  /** Upper-casing twice is upper-casing once. */
  lemma UpperIdempotent(s: string)
    ensures Upper(Upper(s)) == Upper(s)
  {
    var u := Upper(s);
    assert forall i :: 0 <= i < |u| ==> Upper(u)[i] == u[i];
  }

  /** Lines 309-316: the case-insensitive choice of nonlinearity. */
  function ParseActivation(name: string): (a: Activation)
    ensures a.Unrecognised? <==> Upper(name) !in {"RELU", "TANH", "LEAKYRELU", "ELU"}
    ensures a.Unrecognised? ==> a.name == name
    ensures a == ReLU <==> Upper(name) == "RELU"
    ensures a == Tanh <==> Upper(name) == "TANH"
    ensures a == LeakyReLU <==> Upper(name) == "LEAKYRELU"
    ensures a == ELU <==> Upper(name) == "ELU"
  {
    var u := Upper(name);
    if u == "RELU" then ReLU
    else if u == "TANH" then Tanh
    else if u == "LEAKYRELU" then LeakyReLU
    else if u == "ELU" then ELU
    else Unrecognised(name)
  }

  /** Lines 318-320: [in_dim] + hidden_dims + [out_dim]. */
  function Dims(inDim: nat, hidden: seq<nat>, outDim: nat): (d: seq<nat>)
    ensures |d| == |hidden| + 2 && d[0] == inDim && d[|d| - 1] == outDim
    ensures forall i :: 0 <= i < |hidden| ==> d[i + 1] == hidden[i]
  {
    [inDim] + hidden + [outDim]
  }

  predicate Probability(p: real) {
    0.0 <= p <= 1.0
  }

  /** The first n Dropout, Linear, nonlinearity triples of the list. */
  predicate Blocks(layers: seq<Layer>, n: nat, dims: seq<nat>, pIn: real, pHidden: real, act: Activation)
    requires n < |dims|
  {
    && |layers| == 3 * n
    && forall j :: 0 <= j < n ==>
      && layers[3 * j] == Dropout(if j == 0 then pIn else pHidden)
      && layers[3 * j + 1] == Linear(dims[j], dims[j + 1])
      && layers[3 * j + 2] == Nonlinear(act)
  }

  lemma BlocksGrow(layers: seq<Layer>, n: nat, dims: seq<nat>, pIn: real, pHidden: real, act: Activation)
    requires n + 1 < |dims| && Blocks(layers, n, dims, pIn, pHidden, act)
    ensures Blocks(layers + [Dropout(if n == 0 then pIn else pHidden)] + [Linear(dims[n], dims[n + 1])] + [Nonlinear(act)],
                   n + 1, dims, pIn, pHidden, act)
  {
  }

  /** Without its last entry, a list of n >= 1 triples ends with the last Linear. */
  lemma BlocksPopped(layers: seq<Layer>, n: nat, dims: seq<nat>, pIn: real, pHidden: real, act: Activation)
    requires 1 <= n < |dims| && Blocks(layers, n, dims, pIn, pHidden, act)
    ensures var popped := layers[..|layers| - 1];
      && |popped| == 3 * n - 1
      && popped[0] == Dropout(pIn)
      && (forall i :: 1 <= i < n ==> popped[3 * i] == Dropout(pHidden))
      && (forall i :: 0 <= i < n ==> popped[3 * i + 1] == Linear(dims[i], dims[i + 1]))
      && (forall i :: 0 <= i < n - 1 ==> popped[3 * i + 2] == Nonlinear(act))
      && popped[|popped| - 1] == Linear(dims[n - 1], dims[n])
  {
    var z := 0;
    assert layers[3 * z] == Dropout(if z == 0 then pIn else pHidden);
    var j := n - 1;
    assert layers[3 * j + 1] == Linear(dims[j], dims[j + 1]);
    assert 3 * n - 2 == 3 * j + 1;
  }

  /**
   * The layer list of lines 322-335, in order: Dropout(p_in) then Dropout(p_hidden)
   * before each Linear, a nonlinearity after every Linear but the last.
   */
  method BuildLayers(inDim: nat, outDim: nat, hidden: seq<nat>, nonlinearity: string,
                     pIn: real, pHidden: real)
    returns (r: Result<seq<Layer>, BuildError>)
    ensures r.Failure? <==>
      || !Probability(pIn)
      || (|hidden| > 0 && !Probability(pHidden))
      || (|hidden| > 0 && ParseActivation(nonlinearity).Unrecognised?)
    ensures r.Success? ==>
      var layers, dims := r.value, Dims(inDim, hidden, outDim);
      && |layers| == 3 * (|hidden| + 1) - 1
      && layers[0] == Dropout(pIn)
      && (forall i :: 1 <= i <= |hidden| ==> layers[3 * i] == Dropout(pHidden))
      && (forall i :: 0 <= i <= |hidden| ==> layers[3 * i + 1] == Linear(dims[i], dims[i + 1]))
      && (forall i :: 0 <= i < |hidden| ==> layers[3 * i + 2] == Nonlinear(ParseActivation(nonlinearity)))
      && layers[|layers| - 1] == Linear(dims[|hidden|], outDim)
  {
    var act := ParseActivation(nonlinearity);
    var dims := Dims(inDim, hidden, outDim);
    var nlayers := |dims| - 1;
    var layers: seq<Layer> := [];
    for i := 0 to nlayers
      invariant Blocks(layers, i, dims, pIn, pHidden, act)
      invariant i > 0 ==> Probability(pIn)
      invariant i > 1 ==> Probability(pHidden)
    {
      var p := if i == 0 then pIn else pHidden;
      if !Probability(p) {
        return Failure(BadDropout(p));
      }
      BlocksGrow(layers, i, dims, pIn, pHidden, act);
      layers := layers + [Dropout(p)];
      layers := layers + [Linear(dims[i], dims[i + 1])];
      layers := layers + [Nonlinear(act)];
    }
    BlocksPopped(layers, nlayers, dims, pIn, pHidden, act);
    layers := layers[..|layers| - 1];
    if nlayers > 1 && act.Unrecognised? {
      return Failure(NotAModule(act.name));
    }
    r := Success(layers);
  }
}
