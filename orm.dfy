/**
 * The base model every entity extends: an attribute map filled key by key, read with a
 * null default, and persisted through `save`, which inserts or updates depending on
 * whether the primary key is set. `insert` and `update`, reached through `save`, write only
 * the fillable attributes plus timestamps; `create` writes every given pair.
 * A table is a map from auto-increment id to row.
 */
module Orm {
  import opened Wrappers

  /** A column value as PDO hands it over. */
  datatype Valor = Nulo | Entero(i: int) | Decimal(r: real) | Texto(s: string)

  const CREATED_AT: string := "created_at"
  const UPDATED_AT: string := "updated_at"

  /** The keys of an associative array given as its (key, value) pairs. */
  function Claves(pares: seq<(string, Valor)>): set<string>
  {
    if pares == [] then {} else Claves(pares[..|pares| - 1]) + {pares[|pares| - 1].0}
  }

  /** `foreach ($pares as $k => $v) $m[$k] = $v`. */
  function Sobrescribir(m: map<string, Valor>, pares: seq<(string, Valor)>): map<string, Valor>
  {
    if pares == [] then m
    else Sobrescribir(m, pares[..|pares| - 1])[pares[|pares| - 1].0 := pares[|pares| - 1].1]
  }

  /** The pair at `i` is the last one with its key. */
  predicate UltimaAparicion(pares: seq<(string, Valor)>, i: int)
    requires 0 <= i < |pares|
  {
    forall j :: i < j < |pares| ==> pares[j].0 != pares[i].0
  }

  /** Overwriting adds exactly the keys of the pairs. */
  lemma {:induction false} SobrescribirClaves(m: map<string, Valor>, pares: seq<(string, Valor)>)
    ensures Sobrescribir(m, pares).Keys == m.Keys + Claves(pares)
  {
    if pares != [] {
      SobrescribirClaves(m, pares[..|pares| - 1]);
    }
  }

  /** A key no pair mentions keeps its value. */
  lemma {:induction false} SobrescribirConserva(m: map<string, Valor>, pares: seq<(string, Valor)>, k: string)
    requires k in m && k !in Claves(pares)
    ensures k in Sobrescribir(m, pares) && Sobrescribir(m, pares)[k] == m[k]
  {
    if pares != [] {
      SobrescribirConserva(m, pares[..|pares| - 1], k);
    }
  }

  /** Every key gets the value of its last occurrence among the pairs. */
  lemma {:induction false} SobrescribirUltimoGana(m: map<string, Valor>, pares: seq<(string, Valor)>, i: int)
    requires 0 <= i < |pares| && UltimaAparicion(pares, i)
    ensures pares[i].0 in Sobrescribir(m, pares) && Sobrescribir(m, pares)[pares[i].0] == pares[i].1
  {
    var n := |pares| - 1;
    if i < n {
      var previo := pares[..n];
      assert previo[i] == pares[i];
      assert pares[n].0 != pares[i].0;
      assert UltimaAparicion(previo, i) by {
        forall j | i < j < |previo| ensures previo[j].0 != previo[i].0 {
          assert previo[j] == pares[j];
        }
      }
      SobrescribirUltimoGana(m, previo, i);
    }
  }

  /** `isset($attributes[$k])`: present and not null. */
  predicate Isset(attrs: map<string, Valor>, k: string)
  {
    k in attrs && attrs[k] != Nulo
  }

  /** `array_intersect_key($attributes, array_flip($fillable))`. */
  function SoloFillable(attrs: map<string, Valor>, fillable: seq<string>): (d: map<string, Valor>)
    ensures forall k :: k in d <==> k in attrs && k in fillable
    ensures forall k :: k in d ==> d[k] == attrs[k]
  {
    map k | k in attrs && k in fillable :: attrs[k]
  }

  /** What `insert` writes: the fillable attributes and both timestamps. */
  function DatosInsert(attrs: map<string, Valor>, fillable: seq<string>, ahora: Valor): (d: map<string, Valor>)
    ensures forall k :: k in d <==> (k in attrs && k in fillable) || k == CREATED_AT || k == UPDATED_AT
    ensures forall k :: k in d && k != CREATED_AT && k != UPDATED_AT ==> d[k] == attrs[k]
    ensures d[CREATED_AT] == ahora && d[UPDATED_AT] == ahora
  {
    SoloFillable(attrs, fillable)[CREATED_AT := ahora][UPDATED_AT := ahora]
  }

  /** What `update` writes: the fillable attributes and the update timestamp. */
  function DatosUpdate(attrs: map<string, Valor>, fillable: seq<string>, ahora: Valor): (d: map<string, Valor>)
    ensures forall k :: k in d <==> (k in attrs && k in fillable) || k == UPDATED_AT
    ensures forall k :: k in d && k != UPDATED_AT ==> d[k] == attrs[k]
    ensures d[UPDATED_AT] == ahora
  {
    SoloFillable(attrs, fillable)[UPDATED_AT := ahora]
  }

  /** A table: rows by auto-increment id, stored with their id under the primary key. */
  class Tabla {
    var filas: map<int, map<string, Valor>>
    var nextId: int

    constructor (filas: map<int, map<string, Valor>>, nextId: int)
      ensures this.filas == filas && this.nextId == nextId
    {
      this.filas := filas;
      this.nextId := nextId;
    }

    /** `INSERT`: the row goes under the next id, which is returned (`lastInsertId`). */
    method Insertar(pk: string, datos: map<string, Valor>) returns (id: int)
      modifies this
      ensures id == old(nextId) && nextId == id + 1
      ensures filas == old(filas)[id := datos[pk := Entero(id)]]
    {
      id := nextId;
      filas := filas[id := datos[pk := Entero(id)]];
      nextId := id + 1;
    }

    /** `UPDATE ... WHERE pk = ?`: the row whose id is `clave` gets the new columns; no row matches otherwise. */
    method Actualizar(clave: Valor, datos: map<string, Valor>)
      modifies this
      ensures filas == ActualizarEn(old(filas), clave, datos) && nextId == old(nextId)
    {
      if clave.Entero? && clave.i in filas {
        filas := filas[clave.i := filas[clave.i] + datos];
      }
    }

    /** `find(id)`: the row, or nothing. */
    function Find(id: int): (r: Option<map<string, Valor>>)
      reads this
      ensures r.Some? <==> id in filas
      ensures r.Some? ==> r.value == filas[id]
    {
      if id in filas then Some(filas[id]) else None
    }
  }

  /** The effect of `UPDATE ... WHERE pk = clave` on the rows. */
  function ActualizarEn(filas: map<int, map<string, Valor>>, clave: Valor, datos: map<string, Valor>)
    : (r: map<int, map<string, Valor>>)
    ensures r.Keys == filas.Keys
    ensures forall id :: id in filas && clave != Entero(id) ==> r[id] == filas[id]
    ensures clave.Entero? && clave.i in filas ==>
      && r[clave.i].Keys == filas[clave.i].Keys + datos.Keys
      && (forall k :: k in datos ==> r[clave.i][k] == datos[k])
      && (forall k :: k in filas[clave.i] && k !in datos ==> r[clave.i][k] == filas[clave.i][k])
  {
    if clave.Entero? && clave.i in filas then filas[clave.i := filas[clave.i] + datos] else filas
  }

  /** A model instance: its table's key and fillable list, and its attribute map. */
  class Modelo {
    const primaryKey: string
    const fillable: seq<string>
    var attributes: map<string, Valor>

    /** `new static($attributes)`: an empty map filled with the given pairs. */
    constructor (primaryKey: string, fillable: seq<string>, pares: seq<(string, Valor)>)
      ensures this.primaryKey == primaryKey && this.fillable == fillable
      ensures attributes == Sobrescribir(map[], pares)
    {
      this.primaryKey := primaryKey;
      this.fillable := fillable;
      attributes := map[];
      new;
      Fill(pares);
    }

    /** `fill`: each pair in turn overwrites its key. */
    method Fill(pares: seq<(string, Valor)>)
      modifies this
      ensures attributes == Sobrescribir(old(attributes), pares)
    {
      var i := 0;
      while i < |pares|
        invariant 0 <= i <= |pares|
        invariant attributes == Sobrescribir(old(attributes), pares[..i])
      {
        attributes := attributes[pares[i].0 := pares[i].1];
        i := i + 1;
        assert pares[..i][..i - 1] == pares[..i - 1];
      }
      assert pares[..|pares|] == pares;
    }

    /** `__get`: the attribute, or null when absent. */
    function Get(key: string): (v: Valor)
      reads this
      ensures key in attributes ==> v == attributes[key]
      ensures key !in attributes ==> v == Nulo
    {
      if key in attributes then attributes[key] else Nulo
    }

    /** `__set`: that attribute takes the value; a later `__get` returns it. */
    method Set(key: string, v: Valor)
      modifies this
      ensures attributes == old(attributes)[key := v]
      ensures Get(key) == v
      ensures forall k :: k != key ==> Get(k) == old(Get(k))
    {
      attributes := attributes[key := v];
    }

    /** `toArray`: the attribute map, agreeing with `__get` on every key. */
    function ToArray(): (m: map<string, Valor>)
      reads this
      ensures forall k :: k in m ==> Get(k) == m[k]
      ensures forall k :: k !in m ==> Get(k) == Nulo
      ensures m.Keys == attributes.Keys
    {
      attributes
    }

    /** `insert`: writes the fillable attributes with timestamps, then stores the new id as the key. */
    method Insert(t: Tabla, ahora: Valor) returns (ok: bool)
      modifies this, t
      ensures ok
      ensures t.filas == old(t.filas)[old(t.nextId) := DatosInsert(old(attributes), fillable, ahora)[primaryKey := Entero(old(t.nextId))]]
      ensures t.nextId == old(t.nextId) + 1
      ensures attributes == old(attributes)[primaryKey := Entero(old(t.nextId))]
    {
      var datos := DatosInsert(attributes, fillable, ahora);
      var id := t.Insertar(primaryKey, datos);
      attributes := attributes[primaryKey := Entero(id)];
      ok := true;
    }

    /** `update`: writes the fillable attributes and `updated_at` to the row of this key. */
    method Update(t: Tabla, ahora: Valor) returns (ok: bool)
      requires primaryKey in attributes
      modifies t
      ensures ok
      ensures t.filas == ActualizarEn(old(t.filas), attributes[primaryKey], DatosUpdate(attributes, fillable, ahora))
      ensures t.nextId == old(t.nextId)
    {
      var datos := DatosUpdate(attributes, fillable, ahora);
      t.Actualizar(attributes[primaryKey], datos);
      ok := true;
    }

    /** `save`: `update` when the key attribute is set and not null, `insert` otherwise. */
    method Save(t: Tabla, ahora: Valor) returns (ok: bool)
      modifies this, t
      ensures ok
      ensures Isset(old(attributes), primaryKey) ==>
        && attributes == old(attributes)
        && t.filas == ActualizarEn(old(t.filas), old(attributes)[primaryKey], DatosUpdate(old(attributes), fillable, ahora))
        && t.nextId == old(t.nextId)
      ensures !Isset(old(attributes), primaryKey) ==>
        && t.filas == old(t.filas)[old(t.nextId) := DatosInsert(old(attributes), fillable, ahora)[primaryKey := Entero(old(t.nextId))]]
        && t.nextId == old(t.nextId) + 1
        && attributes == old(attributes)[primaryKey := Entero(old(t.nextId))]
    {
      if Isset(attributes, primaryKey) {
        ok := Update(t, ahora);
      } else {
        ok := Insert(t, ahora);
      }
    }
  }

  /**
   * `create(data)`: inserts every given pair (not only the fillable ones) and returns the
   * row found under the new id, as a fresh instance.
   */
  method Create(t: Tabla, primaryKey: string, fillable: seq<string>, data: seq<(string, Valor)>)
    returns (m: Modelo, sql: string)
    requires forall i, j :: 0 <= i < j < |data| ==> data[i].0 != data[j].0
    modifies t
    ensures fresh(m)
    ensures t.nextId == old(t.nextId) + 1
    ensures t.filas == old(t.filas)[old(t.nextId) := Sobrescribir(map[], data)[primaryKey := Entero(old(t.nextId))]]
    ensures m.attributes == t.filas[old(t.nextId)] && m.primaryKey == primaryKey
    ensures sql == InsertSql(ClavesEnOrden(data))
  {
    sql := InsertSql(ClavesEnOrden(data));
    var id := t.Insertar(primaryKey, Sobrescribir(map[], data));
    var fila := t.Find(id);
    m := new Modelo(primaryKey, fillable, []);
    m.attributes := fila.value;
  }

  // The statement text `create` and `insert` send. The table name is left out: it is a
  // constant of each model class.

  /** `array_keys($data)`. */
  function ClavesEnOrden(data: seq<(string, Valor)>): (ks: seq<string>)
    ensures |ks| == |data|
    ensures forall i :: 0 <= i < |data| ==> ks[i] == data[i].0
  {
    if data == [] then [] else [data[0].0] + ClavesEnOrden(data[1..])
  }

  /** `implode($sep, $xs)`. */
  function Unir(xs: seq<string>, sep: string): string
  {
    if |xs| == 0 then "" else if |xs| == 1 then xs[0] else xs[0] + sep + Unir(xs[1..], sep)
  }

  /** `array_fill(0, $n, $x)`. */
  function Repetir(x: string, n: nat): (r: seq<string>)
    ensures |r| == n && forall i :: 0 <= i < n ==> r[i] == x
  {
    if n == 0 then [] else [x] + Repetir(x, n - 1)
  }

  /** `"INSERT INTO t (c1, ..., cn) VALUES (?, ..., ?)"`. */
  function InsertSql(columnas: seq<string>): string
  {
    "INSERT INTO t (" + Unir(columnas, ", ") + ") VALUES (" + Unir(Repetir("?", |columnas|), ", ") + ")"
  }

  /** `"UPDATE t SET c1 = ?, ..., cn = ? WHERE pk = ?"`. */
  function UpdateSql(columnas: seq<string>, pk: string): string
  {
    "UPDATE t SET " + Unir(Asignaciones(columnas), ", ") + " WHERE " + pk + " = ?"
  }

  /** `array_map(fn($k) => "{$k} = ?", $keys)`. */
  function Asignaciones(columnas: seq<string>): (r: seq<string>)
    ensures |r| == |columnas| && forall i :: 0 <= i < |r| ==> r[i] == columnas[i] + " = ?"
  {
    if columnas == [] then [] else [columnas[0] + " = ?"] + Asignaciones(columnas[1..])
  }

  /** The number of `c` characters in `s`. */
  function Contar(s: string, c: char): nat
  {
    if |s| == 0 then 0 else (if s[0] == c then 1 else 0) + Contar(s[1..], c)
  }

  /** The total number of `c` characters in the strings of `xs`. */
  function ContarTodos(xs: seq<string>, c: char): nat
  {
    if xs == [] then 0 else Contar(xs[0], c) + ContarTodos(xs[1..], c)
  }

  lemma {:induction false} ContarConcat(a: string, b: string, c: char)
    ensures Contar(a + b, c) == Contar(a, c) + Contar(b, c)
  {
    if |a| > 0 {
      assert (a + b)[1..] == a[1..] + b;
      ContarConcat(a[1..], b, c);
    } else {
      assert a + b == b;
    }
  }

  lemma {:induction false} ContarSinCaracter(s: string, c: char)
    requires forall i :: 0 <= i < |s| ==> s[i] != c
    ensures Contar(s, c) == 0
  {
    if |s| > 0 {
      ContarSinCaracter(s[1..], c);
    }
  }

  /** A separator without `c` adds none: joining counts exactly the parts' `c`s. */
  lemma {:induction false} ContarUnir(xs: seq<string>, sep: string, c: char)
    requires Contar(sep, c) == 0
    ensures Contar(Unir(xs, sep), c) == ContarTodos(xs, c)
  {
    if |xs| == 1 {
      assert xs[1..] == [];
    } else if |xs| > 1 {
      ContarUnir(xs[1..], sep, c);
      ContarConcat(xs[0], sep, c);
      ContarConcat(xs[0] + sep, Unir(xs[1..], sep), c);
    }
  }

  lemma {:induction false} ContarRepetir(n: nat)
    ensures ContarTodos(Repetir("?", n), '?') == n
  {
    if n > 0 {
      assert Contar("?", '?') == 1 by { ContarSinCaracter("", '?'); assert "?"[1..] == ""; }
      assert Repetir("?", n)[1..] == Repetir("?", n - 1);
      ContarRepetir(n - 1);
    }
  }

  lemma {:induction false} ContarAsignaciones(columnas: seq<string>)
    ensures ContarTodos(Asignaciones(columnas), '?') == |columnas| + ContarTodos(columnas, '?')
  {
    if columnas != [] {
      ContarConcat(columnas[0], " = ?", '?');
      MarcadoresIgualParametro();
      assert Asignaciones(columnas)[1..] == Asignaciones(columnas[1..]);
      ContarAsignaciones(columnas[1..]);
    }
  }

  lemma ContarCinco(a: string, b: string, c: string, d: string, e: string, ch: char)
    ensures Contar(a + b + c + d + e, ch) == Contar(a, ch) + Contar(b, ch) + Contar(c, ch) + Contar(d, ch) + Contar(e, ch)
  {
    ContarConcat(a, b, ch);
    ContarConcat(a + b, c, ch);
    ContarConcat(a + b + c, d, ch);
    ContarConcat(a + b + c + d, e, ch);
  }

  lemma SinMarcador(s: string)
    requires '?' !in s
    ensures Contar(s, '?') == 0
  {
    ContarSinCaracter(s, '?');
  }

  // The fixed parts of both statements; each is counted on its own.

  lemma MarcadoresSeparador() ensures Contar(", ", '?') == 0 { SinMarcador(", "); }
  lemma MarcadoresInsertInto() ensures Contar("INSERT INTO t (", '?') == 0 { SinMarcador("INSERT INTO t ("); }
  lemma MarcadoresValues() ensures Contar(") VALUES (", '?') == 0 { SinMarcador(") VALUES ("); }
  lemma MarcadoresCierre() ensures Contar(")", '?') == 0 { SinMarcador(")"); }
  lemma MarcadoresUpdateSet() ensures Contar("UPDATE t SET ", '?') == 0 { SinMarcador("UPDATE t SET "); }
  lemma MarcadoresWhere() ensures Contar(" WHERE ", '?') == 0 { SinMarcador(" WHERE "); }
  lemma MarcadoresIgualParametro()
    ensures Contar(" = ?", '?') == 1
  {
    SinMarcador("");
    assert " = ?"[1..][1..][1..][1..] == "";
  }

  /** The `INSERT` text has one placeholder per column when no column name contains `?`. */
  lemma InsertSqlMarcadores(columnas: seq<string>)
    requires ContarTodos(columnas, '?') == 0
    ensures Contar(InsertSql(columnas), '?') == |columnas|
  {
    var b, d := Unir(columnas, ", "), Unir(Repetir("?", |columnas|), ", ");
    MarcadoresSeparador();
    MarcadoresInsertInto();
    MarcadoresValues();
    MarcadoresCierre();
    ContarUnir(columnas, ", ", '?');
    ContarUnir(Repetir("?", |columnas|), ", ", '?');
    ContarRepetir(|columnas|);
    ContarCinco("INSERT INTO t (", b, ") VALUES (", d, ")", '?');
  }

  /**
   * The `UPDATE` text has one placeholder per column plus one for the key, which is the
   * number of values `update` binds.
   */
  lemma UpdateSqlMarcadores(columnas: seq<string>, pk: string)
    requires ContarTodos(columnas, '?') == 0
    requires Contar(pk, '?') == 0
    ensures Contar(UpdateSql(columnas, pk), '?') == |columnas| + 1
  {
    var b := Unir(Asignaciones(columnas), ", ");
    MarcadoresSeparador();
    MarcadoresUpdateSet();
    MarcadoresWhere();
    MarcadoresIgualParametro();
    ContarUnir(Asignaciones(columnas), ", ", '?');
    ContarAsignaciones(columnas);
    ContarCinco("UPDATE t SET ", b, " WHERE ", pk, " = ?", '?');
  }
}
