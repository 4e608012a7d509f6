/**
 * Parameter descriptors: the static records every processor advertises through
 * get_parameters (name, type, default and, for numeric parameters, min, max and step).
 */
module Params {
  import opened Wrappers

  /** The declared 'type' of a descriptor. */
  datatype ParamType = IntType | FloatType | BoolType

  /** A descriptor value; float constants are kept as exact decimals. */
  datatype Value = IntValue(i: int) | FloatValue(r: real) | BoolValue(b: bool)

  /** The 'min', 'max' and 'step' entries of a numeric descriptor. */
  datatype Bounds = Bounds(min: Value, max: Value, step: Value)

  datatype Param = Param(name: string, kind: ParamType, default: Value, bounds: Option<Bounds>)

  function IntParam(name: string, default: int, min: int, max: int, step: int): Param
  {
    Param(name, IntType, IntValue(default), Some(Bounds(IntValue(min), IntValue(max), IntValue(step))))
  }

  function FloatParam(name: string, default: real, min: real, max: real, step: real): Param
  {
    Param(name, FloatType, FloatValue(default), Some(Bounds(FloatValue(min), FloatValue(max), FloatValue(step))))
  }

  function BoolParam(name: string, default: bool): Param
  {
    Param(name, BoolType, BoolValue(default), None)
  }

  predicate HasType(v: Value, t: ParamType)
  {
    match t
    case IntType => v.IntValue?
    case FloatType => v.FloatValue?
    case BoolType => v.BoolValue?
  }

  /** The numeric magnitude of an int or float value. */
  function Magnitude(v: Value): real
    requires !v.BoolValue?
  {
    if v.IntValue? then v.i as real else v.r
  }

  /**
   * A descriptor is well formed when its default has the declared type and, if it has
   * bounds, they are numeric of the same type, the step is positive and
   * min <= default <= max.
   */
  predicate WellFormed(p: Param)
  {
    HasType(p.default, p.kind) &&
    match p.bounds
    case None => true
    case Some(b) =>
      p.kind != BoolType &&
      HasType(b.min, p.kind) && HasType(b.max, p.kind) && HasType(b.step, p.kind) &&
      Magnitude(b.min) <= Magnitude(p.default) <= Magnitude(b.max) &&
      Magnitude(b.step) > 0.0
  }

  /** Parameter names are unique within one processor. */
  predicate NamesDistinct(ps: seq<Param>)
  {
    forall i, j :: 0 <= i < j < |ps| ==> ps[i].name != ps[j].name
  }

  predicate ValidTable(ps: seq<Param>)
  {
    (forall i :: 0 <= i < |ps| ==> WellFormed(ps[i])) && NamesDistinct(ps)
  }
}
