/**
 * The warehouse registry (`WarehouseFactory`) and the connection manager (`WarehouseManager`)
 * of `src/tools/warehouse_factory.py`. The factory's class-level table of warehouse classes and
 * the manager's connections and active selection are fields updated in place.
 */
module Warehouses {
  import opened Wrappers
  import opened Text

  /** A warehouse class: its name and whether it implements the `BaseWarehouse` interface. */
  datatype WarehouseClass = WarehouseClass(name: string, implementsBase: bool)

  /** The `connection_details` dict: its `type` entry and the rest of its settings. */
  datatype ConnectionDetails = ConnectionDetails(warehouseType: Option<string>, settings: map<string, string>)

  /** A warehouse instance: its class and, once `initialize_connection` has run, its connection details. */
  datatype Warehouse = Warehouse(cls: WarehouseClass, connection: Option<ConnectionDetails>)

  datatype WarehouseError =
    | UnsupportedType(warehouseType: string)
    | NotAWarehouseClass(className: string)
    | MissingType
    | ConnectionFailed

  const Snowflake := WarehouseClass("Snowflake", true)
  const BigQuery := WarehouseClass("BigQuery", true)

  class WarehouseFactory {
    /** `_warehouse_classes`, keyed by lower-case type name. */
    var registry: map<string, WarehouseClass>

    /** Every key is in lower case and every registered class implements the interface. */
    ghost predicate Valid()
      reads this
    {
      forall t :: t in registry ==> Lower(t) == t && registry[t].implementsBase
    }

    constructor()
      ensures Valid()
      ensures registry == map["snowflake" := Snowflake, "bigquery" := BigQuery]
    {
      registry := map["snowflake" := Snowflake, "bigquery" := BigQuery];
      new;
      assert forall i :: 0 <= i < |"snowflake"| ==> !IsUpperAscii("snowflake"[i]);
      assert forall i :: 0 <= i < |"bigquery"| ==> !IsUpperAscii("bigquery"[i]);
    }

    /** `is_supported`: the type, in lower case, is registered. */
    predicate IsSupported(warehouseType: string)
      reads this
    {
      Lower(warehouseType) in registry
    }

    /** `create_warehouse`: a fresh, unconnected instance of the registered class; `ValueError` otherwise. */
    method CreateWarehouse(warehouseType: string) returns (r: Result<Warehouse, WarehouseError>)
      requires Valid()
      ensures r.Success? <==> IsSupported(warehouseType)
      ensures r.Success? ==> r.value == Warehouse(registry[Lower(warehouseType)], None) && r.value.cls.implementsBase
      ensures r.Failure? ==> r.error == UnsupportedType(warehouseType)
    {
      var key := Lower(warehouseType);
      if key !in registry {
        return Failure(UnsupportedType(warehouseType));
      }
      return Success(Warehouse(registry[key], None));
    }

    /** `register_warehouse`: `TypeError` for a class outside the interface, else store it under the lower-case type. */
    method RegisterWarehouse(warehouseType: string, cls: WarehouseClass) returns (r: Result<(), WarehouseError>)
      requires Valid()
      modifies this
      ensures Valid()
      ensures !cls.implementsBase ==> r == Failure(NotAWarehouseClass(cls.name)) && registry == old(registry)
      ensures cls.implementsBase ==> r.Success? && registry == old(registry)[Lower(warehouseType) := cls]
    {
      if !cls.implementsBase {
        return Failure(NotAWarehouseClass(cls.name));
      }
      LowerLower(warehouseType);
      registry := registry[Lower(warehouseType) := cls];
      return Success(());
    }
  }

  /** `is_supported` ignores letter case. */
  lemma SupportIgnoresCase(f: WarehouseFactory, warehouseType: string)
    ensures f.IsSupported(Upper(warehouseType)) == f.IsSupported(warehouseType)
    ensures f.IsSupported(Lower(warehouseType)) == f.IsSupported(warehouseType)
  {
    LowerUpper(warehouseType);
    LowerLower(warehouseType);
  }

  class WarehouseManager {
    /** `_warehouses`: connection name to warehouse. */
    var warehouses: map<string, Warehouse>
    var active: Option<Warehouse>
    var activeName: Option<string>

    /**
     * The active selection is either clear on both halves, or names a stored connection and
     * holds that connection's warehouse.
     */
    ghost predicate Valid()
      reads this
    {
      && (active.None? <==> activeName.None?)
      && (activeName.Some? ==> activeName.value in warehouses && warehouses[activeName.value] == active.value)
    }

    constructor()
      ensures Valid()
      ensures warehouses == map[] && active == None && activeName == None
    {
      warehouses := map[];
      active := None;
      activeName := None;
    }

    /**
     * `initialize_warehouse`: `ValueError` without a `type`, the factory's `ValueError` for an
     * unsupported one, and whatever the vendor's `initialize_connection` raises (`connects`
     * false) all leave the manager as it was; otherwise the connected warehouse is stored under
     * its name and becomes the active one.
     */
    method InitializeWarehouse(factory: WarehouseFactory, name: string, details: ConnectionDetails, connects: bool)
      returns (r: Result<Warehouse, WarehouseError>)
      requires Valid() && factory.Valid()
      modifies this
      ensures Valid()
      ensures (details.warehouseType.None? || details.warehouseType.value == []) ==> r == Failure(MissingType)
      ensures r.Success? <==>
        details.warehouseType.Some? && details.warehouseType.value != []
        && factory.IsSupported(details.warehouseType.value) && connects
      ensures r.Failure? ==> warehouses == old(warehouses) && active == old(active) && activeName == old(activeName)
      ensures r.Success? ==>
        && r.value == Warehouse(factory.registry[Lower(details.warehouseType.value)], Some(details))
        && warehouses == old(warehouses)[name := r.value]
        && active == Some(r.value) && activeName == Some(name)
    {
      if details.warehouseType.None? || details.warehouseType.value == [] {
        return Failure(MissingType);
      }
      var created := factory.CreateWarehouse(details.warehouseType.value);
      if created.Failure? {
        return Failure(created.error);
      }
      if !connects {
        return Failure(ConnectionFailed);
      }
      var warehouse := created.value.(connection := Some(details));
      warehouses := warehouses[name := warehouse];
      active := Some(warehouse);
      activeName := Some(name);
      return Success(warehouse);
    }

    /** `get_warehouse`: the named connection, or the active warehouse when no name is given. */
    method GetWarehouse(name: string) returns (r: Option<Warehouse>)
      requires Valid()
      ensures name != [] ==> (r.Some? <==> name in warehouses) && (r.Some? ==> r.value == warehouses[name])
      ensures name == [] ==> r == active
      ensures name == [] && r.Some? ==> activeName.Some? && warehouses[activeName.value] == r.value
    {
      if name != [] {
        if name in warehouses {
          return Some(warehouses[name]);
        }
        return None;
      }
      return active;
    }

    /** `set_active_warehouse`: only a stored connection can become active; an unknown name changes nothing. */
    method SetActiveWarehouse(name: string) returns (found: bool)
      requires Valid()
      modifies this
      ensures Valid()
      ensures found <==> name in old(warehouses)
      ensures warehouses == old(warehouses)
      ensures found ==> activeName == Some(name) && active == Some(warehouses[name])
      ensures !found ==> activeName == old(activeName) && active == old(active)
    {
      if name in warehouses {
        active := Some(warehouses[name]);
        activeName := Some(name);
        return true;
      }
      return false;
    }

    /**
     * `close_warehouse`: drop a stored connection (errors from closing its session are logged
     * and ignored), and clear the active selection only if it named that connection.
     */
    method CloseWarehouse(name: string) returns (closed: bool)
      requires Valid()
      modifies this
      ensures Valid()
      ensures closed <==> name in old(warehouses)
      ensures warehouses == old(warehouses) - {name}
      ensures old(activeName) == Some(name) && closed ==> active == None && activeName == None
      ensures old(activeName) != Some(name) ==> active == old(active) && activeName == old(activeName)
    {
      if name !in warehouses {
        return false;
      }
      warehouses := warehouses - {name};
      if activeName == Some(name) {
        active := None;
        activeName := None;
      }
      return true;
    }

    /** `close_all_warehouses`: close every connection named in a snapshot of the keys. */
    method CloseAllWarehouses()
      requires Valid()
      modifies this
      ensures Valid()
      ensures warehouses == map[] && active == None && activeName == None
    {
      var names := warehouses.Keys;
      while names != {}
        invariant Valid()
        invariant warehouses.Keys == names
        decreases |names|
      {
        var name :| name in names;
        var _ := CloseWarehouse(name);
        names := names - {name};
      }
      assert warehouses == map[];
    }
  }
}
