/**
 * Authentication: the four session keys written at login, the read-only session queries
 * the controllers gate on, logout, and the validation chain of registration.
 */
module Auth {
  import opened Wrappers
  import opened Php
  import opened Schema

  const CLIENTE: string := "CLIENTE"
  const VENDEDOR: string := "VENDEDOR"
  const ADMINISTRADOR: string := "ADMINISTRADOR"

  /** A user account as `buscarPorEmail` loads it; `nombreCompleto` is `getNombreCompleto()`. */
  datatype Cuenta = Cuenta(id: int, nombreCompleto: string, rol: string, email: string, hash: string)

  /** The `usuario` part of a successful login response. */
  datatype UsuarioLogin = UsuarioLogin(id: int, nombre: string, rol: string)

  /** What `user()` returns: the four session values. */
  datatype UsuarioSesion = UsuarioSesion(id: int, nombre: Option<string>, rol: Option<string>, email: Option<string>)

  /** `$_SESSION`, restricted to the keys the application uses. */
  class Sesion {
    var usuarioId: Option<int>
    var usuarioNombre: Option<string>
    var usuarioRol: Option<string>
    var usuarioEmail: Option<string>

    /** A fresh session holds no key. */
    constructor ()
      ensures usuarioId == None && usuarioNombre == None && usuarioRol == None && usuarioEmail == None
      ensures !Check()
    {
      usuarioId, usuarioNombre, usuarioRol, usuarioEmail := None, None, None, None;
    }

    /** `check`: `isset($_SESSION['usuario_id'])`. */
    predicate Check()
      reads this
      ensures Check() <==> usuarioId.Some?
    {
      usuarioId.Some?
    }

    /** `id`: the session user id, or null when not logged in. */
    function Id(): (r: Option<int>)
      reads this
      ensures r.Some? <==> Check()
      ensures r.Some? ==> r.value == usuarioId.value
    {
      if Check() then Some(usuarioId.value) else None
    }

    /** `user`: null when not logged in, otherwise the four session values. */
    function User(): (r: Option<UsuarioSesion>)
      reads this
      ensures r.Some? <==> Check()
      ensures r.Some? ==>
        r.value == UsuarioSesion(usuarioId.value, usuarioNombre, usuarioRol, usuarioEmail)
    {
      if !Check() then None
      else Some(UsuarioSesion(usuarioId.value, usuarioNombre, usuarioRol, usuarioEmail))
    }

    /** `hasRole(rol)`: logged in and the stored role is exactly `rol`. */
    predicate HasRole(rol: string)
      reads this
      ensures HasRole(rol) <==> Check() && usuarioRol == Some(rol)
      ensures HasRole(rol) ==> Id().Some?
    {
      Check() && usuarioRol == Some(rol)
    }

    /**
     * `login`: an unknown email fails before the password is looked at, a wrong password
     * fails next, and neither touches the session; success writes the four keys and
     * returns the user's id, full name and role. Password checking is the parameter
     * `verificar(password, hash)`.
     */
    method Login(cuentas: map<string, Cuenta>, email: string, password: string,
                 verificar: (string, string) -> bool) returns (r: Outcome<UsuarioLogin>)
      modifies this
      ensures email !in cuentas ==> r == Fail(UsuarioNoEncontrado) && unchanged(this)
      ensures email in cuentas && !verificar(password, cuentas[email].hash) ==>
        r == Fail(ContrasenaIncorrecta) && unchanged(this)
      ensures r.Ok? <==> email in cuentas && verificar(password, cuentas[email].hash)
      ensures r.Ok? ==>
        var c := cuentas[email];
        && r.value == UsuarioLogin(c.id, c.nombreCompleto, c.rol)
        && usuarioId == Some(c.id) && usuarioNombre == Some(c.nombreCompleto)
        && usuarioRol == Some(c.rol) && usuarioEmail == Some(c.email)
        && Check() && HasRole(c.rol)
    {
      if email !in cuentas {
        return Fail(UsuarioNoEncontrado);
      }
      var usuario := cuentas[email];
      if !verificar(password, usuario.hash) {
        return Fail(ContrasenaIncorrecta);
      }
      usuarioId := Some(usuario.id);
      usuarioNombre := Some(usuario.nombreCompleto);
      usuarioRol := Some(usuario.rol);
      usuarioEmail := Some(usuario.email);
      r := Ok(UsuarioLogin(usuario.id, usuario.nombreCompleto, usuario.rol));
    }

    /** `logout`: the session is destroyed, so no user and no role remain. */
    method Logout()
      modifies this
      ensures usuarioId == None && usuarioNombre == None && usuarioRol == None && usuarioEmail == None
      ensures !Check() && Id() == None && User() == None
      ensures forall rol :: !HasRole(rol)
    {
      usuarioId, usuarioNombre, usuarioRol, usuarioEmail := None, None, None, None;
    }
  }

  /** `empty($datos[k])`: missing, `""` or `"0"`. */
  predicate Vacio(datos: map<string, string>, k: string)
    ensures !Vacio(datos, k) ==> k in datos
  {
    !TruthyString(if k in datos then Some(datos[k]) else None)
  }

  /** None of the five fields `registro` requires is empty. */
  predicate Completos(datos: map<string, string>)
  {
    !Vacio(datos, "nombre") && !Vacio(datos, "apellido") && !Vacio(datos, "email")
    && !Vacio(datos, "password") && !Vacio(datos, "dni")
  }

  /** What `registrarCliente` does: the new user's id, or the message of the exception it threw. */
  datatype Alta = Registrado(usuarioId: int) | Excepcion(mensaje: string)

  /**
   * `registro`: a missing field is reported before any lookup; then a taken email, then a
   * taken DNI; only then is the client registered, and a failure there is reported with
   * its message. The lookups and the registration are given as `existeEmail`, `existeDni`
   * and `alta`.
   */
  function Registro(datos: map<string, string>, existeEmail: string -> bool, existeDni: string -> bool,
                    alta: Alta): (r: Outcome<int>)
    ensures r == Fail(CamposObligatorios) <==> !Completos(datos)
    ensures r == Fail(EmailYaRegistrado) <==> Completos(datos) && existeEmail(datos["email"])
    ensures r == Fail(DniYaRegistrado) <==>
      Completos(datos) && !existeEmail(datos["email"]) && existeDni(datos["dni"])
    ensures r.Ok? <==>
      Completos(datos) && !existeEmail(datos["email"]) && !existeDni(datos["dni"]) && alta.Registrado?
    ensures r.Ok? ==> r.value == alta.usuarioId
    ensures r.Fail? && r.error.ErrorAlRegistrar? ==> alta.Excepcion? && r.error.detalle == alta.mensaje
    ensures Completos(datos) && !existeEmail(datos["email"]) && !existeDni(datos["dni"]) && alta.Excepcion? ==>
      r == Fail(ErrorAlRegistrar(alta.mensaje))
  {
    if Vacio(datos, "nombre") || Vacio(datos, "apellido") || Vacio(datos, "email")
       || Vacio(datos, "password") || Vacio(datos, "dni") then
      Fail(CamposObligatorios)
    else if existeEmail(datos["email"]) then Fail(EmailYaRegistrado)
    else if existeDni(datos["dni"]) then Fail(DniYaRegistrado)
    else match alta
      case Registrado(id) => Ok(id)
      case Excepcion(m) => Fail(ErrorAlRegistrar(m))
  }
}
