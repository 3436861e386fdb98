/**
 * server.js as one object: the three JSON files it keeps (as the values
 * their handlers read) and the operation log. Each handler is one atomic
 * step: read, change the parsed value, write, then log.
 */
module Server {
  import opened Wrappers
  import opened JsValues
  import opened Catalog
  import opened OpLog
  import SiteState

  /** What a handler answers: a JSON body, 404, or 500. */
  datatype Reply<+T> = Ok(body: T) | NotFound | Internal

  /** The log message after POST /api/products: the product's name, or 未命名商品 when it is empty. */
  function InsertMessage(p: Product): (m: string)
    ensures StartsWith(m, "新增商品：")
    ensures p.name != "" ==> m[|"新增商品："|..] == p.name
    ensures p.name == "" ==> m[|"新增商品："|..] == "未命名商品"
  {
    "新增商品：" + (if p.name != "" then p.name else "未命名商品")
  }

  /** The log message after POST /api/products/:id/status: the product's name, an arrow, the new status. */
  function StatusMessage(name: string, status: string): (m: string)
    ensures StartsWith(m, "商品上下架：")
    ensures m[|"商品上下架："|..] == name + " → " + status
  {
    "商品上下架：" + name + " → " + status
  }

  /** The log message after DELETE /api/products/:id: the removed product's name. */
  function DeleteMessage(name: string): (m: string)
    ensures StartsWith(m, "刪除商品：") && m[|"刪除商品："|..] == name
  {
    "刪除商品：" + name
  }

  /** The log message after POST /api/factory-reset. */
  const ResetMessage: string := "⚠️ Factory Reset：所有商品已清空"

  class Shop {
    /** The products.json list; None when the file cannot be read. */
    var products: Option<seq<Product>>
    /** The parsed maintenance.json; None when it cannot be read. */
    var maintenance: Option<SiteState.Config>
    /** `data.text` of announcement.json; None when it cannot be read. */
    var announcement: Option<Value>
    /** The `logs` array. */
    const log: OperationLog

    ghost predicate Valid()
      reads this, log
    {
      log.Valid()
    }

    /** Process start: the files as found on disk, an empty log. */
    constructor (products: Option<seq<Product>>, maintenance: Option<SiteState.Config>, announcement: Option<Value>)
      ensures Valid() && fresh(log)
      ensures this.products == products && this.maintenance == maintenance && this.announcement == announcement
      ensures log.entries == []
    {
      this.products := products;
      this.maintenance := maintenance;
      this.announcement := announcement;
      log := new OperationLog();
    }

    /** The maintenance middleware for a request to `path`. */
    function Gate(path: string): (d: SiteState.Decision)
      reads this
      ensures d == SiteState.MaintenanceNotice <==>
        !SiteState.Bypasses(path) && maintenance.Some? &&
        maintenance.value.ConfigObject? && Truthy(maintenance.value.maintenance)
    {
      SiteState.Gate(path, maintenance)
    }

    /** GET /api/products: the whole stored list, hidden and sold products included; 500 when unreadable. */
    function GetProducts(): (r: Reply<seq<Product>>)
      reads this
      ensures r.Ok? <==> products.Some?
      ensures r.Ok? ==> r.body == products.value
      ensures !r.Ok? ==> r == Internal
    {
      match products
      case None => Internal
      case Some(ps) => Ok(ps)
    }

    /**
     * POST /api/products: appends `p` as sent and answers it. 500 and
     * nothing changes when the file cannot be read or written; only a
     * successful write is logged.
     */
    method AddProduct(p: Product, time: string, writeOk: bool) returns (r: Reply<Product>)
      requires Valid()
      modifies this, log
      ensures Valid()
      ensures maintenance == old(maintenance) && announcement == old(announcement)
      ensures old(products).None? || !writeOk ==>
        r == Internal && products == old(products) && log.entries == old(log.entries)
      ensures old(products).Some? && writeOk ==>
        r == Ok(p) && products == Some(old(products).value + [p]) &&
        log.entries == Pushed(old(log.entries), Entry(time, InsertMessage(p)))
    {
      if products.None? {
        return Internal;
      }
      var list := products.value + [p];
      if !writeOk {
        return Internal;
      }
      products := Some(list);
      log.Log(time, InsertMessage(p));
      r := Ok(p);
    }

    /**
     * POST /api/products/:id/status: the first product with `id` gets
     * `status` verbatim and is answered; 404 when no product has `id`; 500
     * when the file cannot be read or written.
     */
    method SetStatus(id: string, status: string, time: string, writeOk: bool) returns (r: Reply<Product>)
      requires Valid()
      modifies this, log
      ensures Valid()
      ensures maintenance == old(maintenance) && announcement == old(announcement)
      ensures old(products).None? ==> r == Internal
      ensures old(products).Some? && !HasId(old(products).value, id) ==> r == NotFound
      ensures !r.Ok? ==> products == old(products) && log.entries == old(log.entries)
      ensures old(products).Some? && HasId(old(products).value, id) ==>
        (r.Ok? <==> writeOk) && (!writeOk ==> r == Internal)
      ensures r.Ok? ==>
        var before := old(products).value;
        var i := FindIndex(before, id).value;
        products == UpdateStatus(before, id, status) &&
        r.body == before[i].(status := status) &&
        log.entries == Pushed(old(log.entries), Entry(time, StatusMessage(before[i].name, status)))
    {
      if products.None? {
        return Internal;
      }
      var list := products.value;
      var found := FindIndex(list, id);
      if found.None? {
        return NotFound;
      }
      var i := found.value;
      var product := list[i].(status := status);
      list := list[i := product];
      if !writeOk {
        return Internal;
      }
      products := Some(list);
      log.Log(time, StatusMessage(product.name, status));
      r := Ok(product);
    }

    /**
     * DELETE /api/products/:id: the first product with `id` is removed;
     * 404 when no product has `id`; 500 when the file cannot be read or
     * written.
     */
    method DeleteProduct(id: string, time: string, writeOk: bool) returns (r: Reply<()>)
      requires Valid()
      modifies this, log
      ensures Valid()
      ensures maintenance == old(maintenance) && announcement == old(announcement)
      ensures old(products).None? ==> r == Internal
      ensures old(products).Some? && !HasId(old(products).value, id) ==> r == NotFound
      ensures !r.Ok? ==> products == old(products) && log.entries == old(log.entries)
      ensures old(products).Some? && HasId(old(products).value, id) ==>
        (r.Ok? <==> writeOk) && (!writeOk ==> r == Internal)
      ensures r.Ok? ==>
        var removal := Remove(old(products).value, id).value;
        products == Some(removal.rest) &&
        log.entries == Pushed(old(log.entries), Entry(time, DeleteMessage(removal.removed.name)))
    {
      if products.None? {
        return Internal;
      }
      var removal := Remove(products.value, id);
      if removal.None? {
        return NotFound;
      }
      if !writeOk {
        return Internal;
      }
      products := Some(removal.value.rest);
      log.Log(time, DeleteMessage(removal.value.removed.name));
      r := Ok(());
    }

    /** POST /api/factory-reset: writes the empty list without reading the old one; 500 when the write fails. */
    method FactoryReset(time: string, writeOk: bool) returns (r: Reply<()>)
      requires Valid()
      modifies this, log
      ensures Valid()
      ensures maintenance == old(maintenance) && announcement == old(announcement)
      ensures r.Ok? <==> writeOk
      ensures !writeOk ==> r == Internal && products == old(products) && log.entries == old(log.entries)
      ensures writeOk ==>
        products == Some([]) && log.entries == Pushed(old(log.entries), Entry(time, ResetMessage))
    {
      if !writeOk {
        return Internal;
      }
      products := Some([]);
      log.Log(time, ResetMessage);
      r := Ok(());
    }

    /** GET /api/maintenance: never fails, `false` when the file cannot be read, the stored property otherwise. */
    function GetMaintenance(): (v: Value)
      reads this
      ensures maintenance.None? ==> v == Bool(false)
      ensures maintenance.Some? && maintenance.value.ConfigObject? ==> v == maintenance.value.maintenance
      ensures maintenance.Some? && maintenance.value.NotAnObject? ==> v == Undefined
    {
      SiteState.GetMaintenance(maintenance)
    }

    /**
     * POST /api/maintenance: stores `!!requested` into an object document
     * and writes any other document back unchanged; 500 and nothing changes
     * when the file cannot be read or written.
     */
    method SetMaintenance(requested: Value, time: string, writeOk: bool) returns (r: Reply<()>)
      requires Valid()
      modifies this, log
      ensures Valid()
      ensures products == old(products) && announcement == old(announcement)
      ensures r.Ok? <==> old(maintenance).Some? && writeOk
      ensures !r.Ok? ==> r == Internal && maintenance == old(maintenance) && log.entries == old(log.entries)
      ensures r.Ok? ==>
        (old(maintenance).value.ConfigObject? ==>
          maintenance == Some(SiteState.ConfigObject(Bool(Truthy(requested))))) &&
        (old(maintenance).value.NotAnObject? ==> maintenance == old(maintenance)) &&
        log.entries == Pushed(old(log.entries), Entry(time, SiteState.MaintenanceMessage(requested)))
    {
      var stored := SiteState.SetMaintenance(maintenance, requested);
      if stored.None? || !writeOk {
        return Internal;
      }
      maintenance := stored;
      log.Log(time, SiteState.MaintenanceMessage(requested));
      r := Ok(());
    }

    /** GET /api/announcement: never fails; the stored text when truthy, "" otherwise. */
    function GetAnnouncement(): (v: Value)
      reads this
      ensures Truthy(v) || v == Text("")
      ensures announcement.Some? && Truthy(announcement.value) ==> v == announcement.value
      ensures !(announcement.Some? && Truthy(announcement.value)) ==> v == Text("")
    {
      SiteState.GetAnnouncement(announcement)
    }

    /**
     * POST /api/announcement: stores the posted value without reading the
     * file first; 500 and nothing changes when the write fails.
     */
    method SetAnnouncement(text: Value, time: string, writeOk: bool) returns (r: Reply<()>)
      requires Valid()
      modifies this, log
      ensures Valid()
      ensures products == old(products) && maintenance == old(maintenance)
      ensures r.Ok? <==> writeOk
      ensures !writeOk ==> r == Internal && announcement == old(announcement) && log.entries == old(log.entries)
      ensures writeOk ==>
        announcement == Some(text) &&
        log.entries == Pushed(old(log.entries), Entry(time, SiteState.AnnouncementMessage(text)))
    {
      if !writeOk {
        return Internal;
      }
      announcement := Some(text);
      log.Log(time, SiteState.AnnouncementMessage(text));
      r := Ok(());
    }

    /** GET /api/logs: the log, newest first, never longer than MaxLogs. */
    function GetLogs(): (r: seq<string>)
      requires Valid()
      reads this, log
      ensures |r| <= MaxLogs
      ensures r == log.entries
    {
      log.entries
    }
  }
}
