/**
 * Grammar symbols on the parser's stack (`driver/symbol.py`): a name, an
 * optional semantic value and an attribute dictionary, compared field by
 * field.
 */
module Symbols {
  import opened Wrappers

  /** `Symbol(name, value=None, attributes={})`; `V` is the type of semantic values. */
  datatype Symbol<V> = Symbol(name: string, value: Option<V>, attributes: map<string, V>)

  /** A symbol built from a name and a value, with its own empty attribute dictionary. */
  function Make<V>(name: string, value: Option<V>): (s: Symbol<V>)
    ensures s.name == name && s.value == value && s.attributes == map[]
  {
    Symbol(name, value, map[])
  }

  /** `repr`: `Symbol(name, value)`, with `None` for a missing value; `show` prints a value. */
  function Render<V>(s: Symbol<V>, show: V -> string): (r: string)
    ensures |r| >= 10 + |s.name| && r[..9 + |s.name|] == "Symbol(" + s.name + ", " && r[|r| - 1] == ')'
    ensures r[9 + |s.name|..|r| - 1] == (match s.value case Some(v) => show(v) case None => "None")
  {
    "Symbol(" + s.name + ", " + (match s.value case Some(v) => show(v) case None => "None") + ")"
  }

  /** The printed form shows the name and value and nothing else: symbols that differ only in their attributes print alike. */
  lemma RenderIgnoresAttributes<V>(s: Symbol<V>, t: Symbol<V>, show: V -> string)
    requires s.name == t.name && s.value == t.value
    ensures Render(s, show) == Render(t, show)
  {
  }
}
