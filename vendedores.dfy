/** The seller model: a user joined with its `vendedores` row, and its commission rate. */
module Vendedores {
  import opened Wrappers
  import opened Php
  import opened Schema

  /** The commission percentage every seller object is initialised with. */
  const COMISION_DEFECTO: real := 5.0

  /**
   * A loaded seller. `comision` is the private rate field; the model only ever builds
   * sellers through `Construir`, as the source only ever assigns it its default.
   */
  datatype Vendedor = Vendedor(
    idUsuario: Option<int>,
    dniVendedor: Option<string>,
    nombre: string,
    apellido: string,
    comision: real)
  {
    /** `getComision`: the rate, as a percentage. */
    function GetComision(): (c: real)
      ensures c == comision
    {
      comision
    }

    /** `calcularComision`: `comision` percent of the amount. */
    function CalcularComision(montoVenta: real): (c: real)
      ensures c * 100.0 == montoVenta * GetComision()
    {
      montoVenta * (comision / 100.0)
    }

    /**
     * `getVentas`: no DNI (or a falsy one) gives no sales; otherwise the sale ids the
     * DNI-keyed sales query returns, here given as `ventasPorDni`.
     */
    function GetVentas(ventasPorDni: map<string, seq<int>>): (r: seq<int>)
      ensures !TruthyString(dniVendedor) ==> r == []
      ensures TruthyString(dniVendedor) && dniVendedor.value in ventasPorDni ==> r == ventasPorDni[dniVendedor.value]
    {
      if !TruthyString(dniVendedor) then []
      else if dniVendedor.value in ventasPorDni then ventasPorDni[dniVendedor.value]
      else []
    }
  }

  /**
   * The constructor with `cargarDatosVendedor`: when the user id is truthy and has a
   * `vendedores` row, the DNI and names come from that row; the rate keeps its default.
   */
  function Construir(vendedores: map<int, VendedorRow>, userId: Option<int>, nombre: string, apellido: string)
    : (v: Vendedor)
    ensures v.comision == COMISION_DEFECTO
    ensures v.idUsuario == userId
    ensures v.dniVendedor.Some? <==> TruthyInt(userId) && userId.value in vendedores
    ensures v.dniVendedor.Some? ==>
      && v.dniVendedor.value == vendedores[userId.value].dniVendedor
      && v.nombre == vendedores[userId.value].nombre && v.apellido == vendedores[userId.value].apellido
    ensures v.dniVendedor.None? ==> v.nombre == nombre && v.apellido == apellido
  {
    if TruthyInt(userId) && userId.value in vendedores then
      var row := vendedores[userId.value];
      Vendedor(userId, Some(row.dniVendedor), row.nombre, row.apellido, COMISION_DEFECTO)
    else
      Vendedor(userId, None, nombre, apellido, COMISION_DEFECTO)
  }

  /** `find`: the user joined with its `vendedores` row, or nothing. */
  function Find(vendedores: map<int, VendedorRow>, id: int): (r: Option<Vendedor>)
    ensures r.Some? <==> id in vendedores
    ensures r.Some? ==>
      && r.value.comision == COMISION_DEFECTO && r.value.idUsuario == Some(id)
      && r.value.dniVendedor == Some(vendedores[id].dniVendedor)
  {
    if id in vendedores then
      var row := vendedores[id];
      var v := Construir(vendedores, Some(id), row.nombre, row.apellido);
      Some(v.(dniVendedor := Some(row.dniVendedor)))
    else None
  }

  /**
   * Every seller the store hands out charges 5 percent: `getComision` is 5.0 and
   * `calcularComision` uses that same rate, staying between 0 and the amount.
   */
  lemma ComisionDeVendedorEncontrado(vendedores: map<int, VendedorRow>, id: int, monto: real)
    requires Find(vendedores, id).Some?
    ensures Find(vendedores, id).value.GetComision() == 5.0
    ensures Find(vendedores, id).value.CalcularComision(monto) == monto * 5.0 / 100.0
    ensures 0.0 <= monto ==> 0.0 <= Find(vendedores, id).value.CalcularComision(monto) <= monto
  {
  }
}
