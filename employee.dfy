/** The employee record: its JSON rendering (to_dict, with the derived
    full name) and the validation of an incoming payload (from_dict). */
module Employee {
  import opened Wrappers
  import opened Values
  import opened Calendar

  /** A stored employee. fecha_ingreso is a calendar date; estado and
      unidad_productiva are nullable columns. */
  datatype Empleado = Empleado(
    id: int,
    cedula: string,
    nombres: string,
    apellidos: string,
    area: string,
    cargo: string,
    fechaIngreso: CivilDate,
    estado: Option<bool>,
    unidadProductiva: Option<string>)

  /** The derived full name: given names, one space, surnames. */
  function NombreCompleto(nombres: string, apellidos: string): (r: string)
    ensures |r| == |nombres| + |apellidos| + 1
    ensures r[..|nombres|] == nombres && r[|nombres|] == ' ' && r[|nombres| + 1..] == apellidos
  {
    nombres + " " + apellidos
  }

  /** When the given names hold no space, the full name determines both parts. */
  lemma NombreCompletoInjective(n1: string, a1: string, n2: string, a2: string)
    requires ' ' !in n1 && ' ' !in n2
    requires NombreCompleto(n1, a1) == NombreCompleto(n2, a2)
    ensures n1 == n2 && a1 == a2
  {
  }

  function OptionalBool(b: Option<bool>): Value {
    if b.Some? then Bool(b.value) else Null
  }

  function OptionalStr(s: Option<string>): Value {
    if s.Some? then Str(s.value) else Null
  }

  /** The keys of to_dict's dictionary. */
  const ToDictKeys: set<string> := {"id", "cedula", "nombres", "apellidos", "nombre_completo",
                       "area", "cargo", "fecha_ingreso", "estado", "unidad_productiva"}

  /** The value to_dict puts under key k. */
  function Column(e: Empleado, k: string): Value
    requires IsValidDate(e.fechaIngreso)
  {
    if k == "id" then Int(e.id)
    else if k == "cedula" then Str(e.cedula)
    else if k == "nombres" then Str(e.nombres)
    else if k == "apellidos" then Str(e.apellidos)
    else if k == "nombre_completo" then Str(NombreCompleto(e.nombres, e.apellidos))
    else if k == "area" then Str(e.area)
    else if k == "cargo" then Str(e.cargo)
    else if k == "fecha_ingreso" then Str(FormatIsoDate(e.fechaIngreso))
    else if k == "estado" then OptionalBool(e.estado)
    else OptionalStr(e.unidadProductiva)
  }

  /** to_dict: every column under its own key, the full name, and the
      admission date as 'YYYY-MM-DD'. */
  function ToDict(e: Empleado): (d: map<string, Value>)
    requires IsValidDate(e.fechaIngreso)
    ensures d.Keys == ToDictKeys
    ensures d["nombre_completo"] == Str(NombreCompleto(e.nombres, e.apellidos))
  {
    map k | k in ToDictKeys :: Column(e, k)
  }

  /** The admission date is written so that strptime('%Y-%m-%d') reads the
      same day back. */
  lemma ToDictFechaIngreso(e: Empleado)
    requires IsValidDate(e.fechaIngreso)
    ensures ToDict(e)["fecha_ingreso"].Str?
    ensures StrptimeYmd(ToDict(e)["fecha_ingreso"].s) == Some(e.fechaIngreso)
  {
    StrptimeOfFormat(e.fechaIngreso);
  }

  // ---------------------------------------------------------------- from_dict

  /** The keys from_dict requires, in the order it checks them. */
  const CamposRequeridos: seq<string> := ["cedula", "nombres", "apellidos", "area", "cargo"]

  const UnidadPorDefecto: string := "JOYGARDENS"

  /** Why from_dict refuses a payload: a required key is absent (ValueError),
      fecha_ingreso is truthy but not a string (TypeError from strptime), or a
      string strptime rejects (ValueError). */
  datatype FromDictError =
    | MissingField(campo: string)
    | FechaIngresoNotString
    | FechaIngresoMalformed

  /** The attribute dictionary from_dict returns; the values are passed on
      as the payload holds them. */
  datatype EmpleadoData = EmpleadoData(
    cedula: Value,
    nombres: Value,
    apellidos: Value,
    area: Value,
    cargo: Value,
    fechaIngreso: DateTime,
    estado: Value,
    unidadProductiva: Value)

  /** The first of the keys, in order, absent from the payload. */
  function FirstMissing(data: map<string, Value>, campos: seq<string>): (r: Option<string>)
    ensures r.None? <==> forall k | k in campos :: k in data
    ensures r.Some? ==> r.value in campos && r.value !in data
  {
    if campos == [] then None
    else if campos[0] !in data then Some(campos[0])
    else FirstMissing(data, campos[1..])
  }

  /** The key reported is the earliest absent one. */
  lemma {:induction false} FirstMissingIsFirst(data: map<string, Value>, campos: seq<string>, i: nat)
    requires i < |campos| && campos[i] !in data
    requires forall j | 0 <= j < i :: campos[j] in data
    ensures FirstMissing(data, campos) == Some(campos[i])
  {
    if i > 0 {
      assert campos[0] in data;
      FirstMissingIsFirst(data, campos[1..], i - 1);
    }
  }

  /** dict.get(key, default). */
  function Get(data: map<string, Value>, key: string, default: Value): Value {
    if key in data then data[key] else default
  }

  function Midnight(d: CivilDate): DateTime {
    DateTime(d, 0, 0, 0)
  }

  /** The admission timestamp: the parsed date at midnight when the payload
      carries a truthy fecha_ingreso, the current time otherwise. */
  function FechaIngreso(data: map<string, Value>, now: DateTime): Result<DateTime, FromDictError> {
    var v := Get(data, "fecha_ingreso", Null);
    if !Truthy(v) then Success(now)
    else if !v.Str? then Failure(FechaIngresoNotString)
    else match StrptimeYmd(v.s)
      case None => Failure(FechaIngresoMalformed)
      case Some(d) => Success(Midnight(d))
  }

  /** from_dict; the clock reading utcnow() is the parameter now. */
  function FromDict(data: map<string, Value>, now: DateTime): Result<EmpleadoData, FromDictError> {
    match FirstMissing(data, CamposRequeridos)
    case Some(campo) => Failure(MissingField(campo))
    case None =>
      match FechaIngreso(data, now)
      case Failure(err) => Failure(err)
      case Success(fecha) =>
        Success(EmpleadoData(
          data["cedula"], data["nombres"], data["apellidos"], data["area"], data["cargo"],
          fecha,
          Get(data, "estado", Bool(true)),
          Get(data, "unidad_productiva", Str(UnidadPorDefecto))))
  }

  /** A missing required key is reported, and it is the first one in order. */
  lemma FromDictMissingField(data: map<string, Value>, now: DateTime, i: nat)
    requires i < |CamposRequeridos| && CamposRequeridos[i] !in data
    requires forall j | 0 <= j < i :: CamposRequeridos[j] in data
    ensures FromDict(data, now) == Failure(MissingField(CamposRequeridos[i]))
  {
    FirstMissingIsFirst(data, CamposRequeridos, i);
  }

  /** from_dict only checks that the required keys are present: on every
      successful call the five values, None and empty strings included, are
      copied unchanged; with no or a falsy date it always succeeds, at now. */
  lemma FromDictCopiesFields(data: map<string, Value>, now: DateTime)
    ensures FromDict(data, now).Success? ==>
      var r := FromDict(data, now).value;
      && r.cedula == data["cedula"] && r.nombres == data["nombres"]
      && r.apellidos == data["apellidos"] && r.area == data["area"] && r.cargo == data["cargo"]
    ensures (forall k | k in CamposRequeridos :: k in data) && !Truthy(Get(data, "fecha_ingreso", Null)) ==>
      FromDict(data, now).Success? && FromDict(data, now).value.fechaIngreso == now
  {
  }

  /** estado defaults to True and unidad_productiva to 'JOYGARDENS' only when
      the key is absent; a key present with None keeps None. */
  lemma FromDictDefaults(data: map<string, Value>, now: DateTime)
    requires FromDict(data, now).Success?
    ensures var r := FromDict(data, now).value;
      && (r.estado == if "estado" in data then data["estado"] else Bool(true))
      && (r.unidadProductiva == if "unidad_productiva" in data then data["unidad_productiva"] else Str("JOYGARDENS"))
  {
  }

  /** The admission date: absent or falsy means now, a string strptime
      accepts means that day at midnight, anything else is refused. */
  lemma FromDictFechaIngreso(data: map<string, Value>, now: DateTime, s: string)
    requires forall k | k in CamposRequeridos :: k in data
    requires "fecha_ingreso" in data && data["fecha_ingreso"] == Str(s) && s != ""
    ensures StrptimeYmd(s).None? ==> FromDict(data, now) == Failure(FechaIngresoMalformed)
    ensures StrptimeYmd(s).Some? ==>
      FromDict(data, now).Success? && FromDict(data, now).value.fechaIngreso == Midnight(StrptimeYmd(s).value)
    ensures FromDict(data, now).Success? ==> IsValidDate(FromDict(data, now).value.fechaIngreso.date)
  {
  }

  /** Feeding to_dict's output back to from_dict recovers every column, the
      admission date at midnight, and never consults the clock. */
  lemma FromDictOfToDict(e: Empleado, now: DateTime)
    requires IsValidDate(e.fechaIngreso)
    ensures FromDict(ToDict(e), now) == Success(EmpleadoData(
      Str(e.cedula), Str(e.nombres), Str(e.apellidos), Str(e.area), Str(e.cargo),
      Midnight(e.fechaIngreso), OptionalBool(e.estado), OptionalStr(e.unidadProductiva)))
  {
    var d := ToDict(e);
    ToDictFechaIngreso(e);
    assert FirstMissing(d, CamposRequeridos) == None by {
      assert forall k | k in CamposRequeridos :: k in d;
    }
    assert FechaIngreso(d, now) == Success(Midnight(e.fechaIngreso)) by {
      var v := d["fecha_ingreso"];
      assert Get(d, "fecha_ingreso", Null) == v;
      assert v.s != [] by {
        assert StrptimeYmd(v.s).Some?;
      }
    }
  }
}
