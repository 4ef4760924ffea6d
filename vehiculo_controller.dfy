/** The vehicle endpoints: the public catalog, a vehicle's detail, and creation by an administrator. */
module VehiculoController {
  import opened Wrappers
  import opened Schema
  import Auth
  import Vehiculos
  import Coherencia

  /** `index`: the catalog holds exactly the DISPONIBLE vehicles. */
  function Index(t: Tables): (r: map<int, Vehiculo>)
    ensures forall id :: id in r ==> id in t.vehiculos && r[id] == t.vehiculos[id] && r[id].estado == Vehiculos.DISPONIBLE
    ensures forall id :: id in t.vehiculos && t.vehiculos[id].estado == Vehiculos.DISPONIBLE ==> id in r
  {
    Vehiculos.Disponibles(t.vehiculos)
  }

  /** `show(id)`: the stored vehicle, or not found. */
  function Show(t: Tables, id: int): (r: Outcome<Vehiculo>)
    ensures r.Ok? <==> id in t.vehiculos
    ensures r.Ok? ==> r.value == t.vehiculos[id]
    ensures r.Fail? ==> r.error == VehiculoNoEncontrado
  {
    if id in t.vehiculos then Ok(t.vehiculos[id]) else Fail(VehiculoNoEncontrado)
  }

  /** The request fields `store` reads; the optional ones are `None` when absent or null. */
  datatype DatosVehiculo = DatosVehiculo(
    marca: string, modelo: string, anio: int, precio: real, tipo: string,
    kilometraje: Option<int>, color: Option<string>, descripcion: Option<string>, imagenUrl: Option<string>)

  /** The row `store` inserts: always DISPONIBLE, with 0 km and empty texts by default. */
  function NuevoVehiculo(d: DatosVehiculo): (v: Vehiculo)
    ensures Vehiculos.EstaDisponible(v)
    ensures v.marca == d.marca && v.modelo == d.modelo && v.anio == d.anio && v.precio == d.precio && v.tipo == d.tipo
    ensures d.kilometraje.None? ==> v.kilometraje == 0 && Vehiculos.EsNuevo(v)
    ensures d.kilometraje.Some? ==> v.kilometraje == d.kilometraje.value
    ensures d.color.None? ==> v.color == ""
    ensures d.color.Some? ==> v.color == d.color.value
    ensures d.descripcion.None? ==> v.descripcion == ""
    ensures d.descripcion.Some? ==> v.descripcion == d.descripcion.value
    ensures d.imagenUrl.None? ==> v.imagenUrl == ""
    ensures d.imagenUrl.Some? ==> v.imagenUrl == d.imagenUrl.value
  {
    Vehiculo(d.marca, d.modelo, d.anio, d.precio, Vehiculos.DISPONIBLE, d.tipo,
             d.kilometraje.GetOr(0), d.color.GetOr(""), d.descripcion.GetOr(""), d.imagenUrl.GetOr(""))
  }

  /**
   * `store(datos)`: anyone but an ADMINISTRADOR is refused and nothing is inserted;
   * otherwise the new vehicle is inserted under the next id, which is returned.
   */
  function StoreStep(t: Tables, sesion: Auth.Sesion, datos: DatosVehiculo): (s: Step<int>)
    reads sesion
    ensures !sesion.HasRole(Auth.ADMINISTRADOR) ==> s == Step(t, Fail(NoAutorizado))
    ensures sesion.HasRole(Auth.ADMINISTRADOR) ==>
      && s.result == Ok(t.nextVehiculoId)
      && s.tables.vehiculos.Keys == t.vehiculos.Keys + {t.nextVehiculoId}
      && s.tables.vehiculos[t.nextVehiculoId] == NuevoVehiculo(datos)
      && (forall id :: id in t.vehiculos && id != t.nextVehiculoId ==> s.tables.vehiculos[id] == t.vehiculos[id])
      && s.tables == t.(vehiculos := s.tables.vehiculos, nextVehiculoId := t.nextVehiculoId + 1)
  {
    if !sesion.HasRole(Auth.ADMINISTRADOR) then Step(t, Fail(NoAutorizado))
    else
      var id := t.nextVehiculoId;
      Step(t.(vehiculos := t.vehiculos[id := NuevoVehiculo(datos)], nextVehiculoId := id + 1), Ok(id))
  }

  method Store(db: Database, sesion: Auth.Sesion, datos: DatosVehiculo) returns (r: Outcome<int>)
    modifies db
    ensures Step(db.State(), r) == StoreStep(old(db.State()), sesion, datos)
  {
    if !sesion.HasRole(Auth.ADMINISTRADOR) {
      return Fail(NoAutorizado);
    }
    var id := db.nextVehiculoId;
    db.vehiculos := db.vehiculos[id := NuevoVehiculo(datos)];
    db.nextVehiculoId := id + 1;
    r := Ok(id);
  }

  /** Adding a vehicle keeps the store coherent. */
  lemma StorePreserva(t: Tables, sesion: Auth.Sesion, datos: DatosVehiculo)
    requires Coherencia.Coherente(t)
    ensures Coherencia.Coherente(StoreStep(t, sesion, datos).tables)
  {
    var s := StoreStep(t, sesion, datos);
    if sesion.HasRole(Auth.ADMINISTRADOR) {
      var t' := s.tables;
      var nuevo := t.nextVehiculoId;
      assert nuevo !in t.vehiculos;
      assert forall id :: id in t.reservas ==> t.reservas[id].vehiculoId != nuevo;
      assert forall id :: id in t.ventas ==> t.ventas[id].vehiculoId != nuevo;
      forall a, b, v | Coherencia.ActivaSobre(t', a, v) && Coherencia.ActivaSobre(t', b, v) ensures a == b {
        assert Coherencia.ActivaSobre(t, a, v) && Coherencia.ActivaSobre(t, b, v);
      }
    }
  }
}
