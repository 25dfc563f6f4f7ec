/** The default NVS partition with the flash_info record, and its copy in memory (damda_nvs.c). */
module Flash {
  import opened Base

  const INIT_MODE := 0x55
  const NORMAL_MODE := 0x00
  const FACTORY_MODE := 0xAA

  datatype FlashInfo = FlashInfo(bootingMode: nat, mac: string, version: string, otaModeFail: bool,
                                 igain: nat, vgain: nat, sgain: nat)

  /** A global record before anything is read into it. */
  const ZERO := FlashInfo(0, "", "", false, 0, 0, 0)
  const FACTORY := FlashInfo(INIT_MODE, "", "1.0", false, 0, 0, 0)

  datatype Key = ServerAddr | ServerPort | ApSsid | ApPassword | AuthKey | ApSsidB | ApPasswordB

  /** What survives a restart: the record and the string keys, both in the default partition. */
  datatype Partition = Partition(blob: Option<FlashInfo>, strings: map<Key, string>)

  const ERASED := Partition(None, map[])

  /** What read_flash leaves in memory when the record is missing: factory values, but the gains of
      the caller, in FACTORY_MODE. */
  function FirstBoot(info: FlashInfo): FlashInfo {
    FACTORY.(bootingMode := FACTORY_MODE, igain := info.igain, vgain := info.vgain, sgain := info.sgain)
  }

  class Store {
    /** `flash_info`. */
    var info: FlashInfo
    /** `factory_flash_info`; reset_flash overwrites its gains. */
    var factory: FlashInfo
    var nvs: Partition
    /** Whether the partition is initialised: nvs_open fails between an erase and the next initialisation. */
    var ready: bool

    ghost predicate Valid()
      reads this
    {
      factory == FACTORY.(igain := factory.igain, vgain := factory.vgain, sgain := factory.sgain)
    }

    /** The memory image at power-up, over a partition that survived. */
    constructor (nvs: Partition)
      ensures Valid() && info == ZERO && this.nvs == nvs && !ready
    {
      info, factory, this.nvs, ready := ZERO, FACTORY, nvs, false;
    }

    /** write_flash(&flash_info). */
    method WriteFlash()
      modifies `nvs
      ensures nvs == if ready then old(nvs).(blob := Some(info)) else old(nvs)
    {
      if !ready {
        return;
      }
      nvs := nvs.(blob := Some(info));
    }

    /** reset_flash(&flash_info): the gains go into the factory record, then the record is copied back. */
    method ResetFlash()
      requires Valid()
      modifies `info, `factory
      ensures Valid()
      ensures info == FACTORY.(igain := old(info.igain), vgain := old(info.vgain), sgain := old(info.sgain))
    {
      factory := factory.(igain := info.igain);
      factory := factory.(vgain := info.vgain);
      factory := factory.(sgain := info.sgain);
      info := factory;
    }

    /** read_flash(&flash_info). */
    method ReadFlash()
      requires Valid()
      modifies `info, `factory, `nvs
      ensures Valid()
      ensures !ready ==> info == old(info) && nvs == old(nvs)
      ensures ready ==> info == (if old(nvs).blob.Some? then old(nvs).blob.value else FirstBoot(old(info)))
      ensures ready && old(nvs).blob.None? ==>
                info == FlashInfo(0xAA, "", "1.0", false, old(info).igain, old(info).vgain, old(info).sgain)
      ensures ready ==> nvs == old(nvs).(blob := Some(info))
    {
      if !ready {
        return;
      }
      match nvs.blob
      case Some(stored) =>
        info := stored;
      case None =>
        ResetFlash();
        info := info.(bootingMode := FACTORY_MODE);
        WriteFlash();
    }

    /** nvs_flash_erase: both namespaces lie in the default partition. */
    method Erase()
      modifies `nvs, `ready
      ensures nvs == ERASED && !ready
    {
      nvs, ready := ERASED, false;
    }

    /** damda_nvs_init. `noFreePages` is the result of the first initialisation. */
    method Init(noFreePages: bool)
      requires Valid()
      modifies this
      ensures Valid() && ready
      ensures info == if noFreePages || old(nvs).blob.None? then FirstBoot(old(info)) else old(nvs).blob.value
      ensures nvs == (if noFreePages then ERASED else old(nvs)).(blob := Some(info))
    {
      if noFreePages {
        Erase();
      }
      ready := true;
      ReadFlash();
    }

    /** nvs_set_str; the commits and closes are part of the step. */
    method SetString(key: Key, value: string)
      modifies `nvs
      ensures nvs == if ready then old(nvs).(strings := old(nvs).strings[key := value]) else old(nvs)
    {
      if ready {
        nvs := nvs.(strings := nvs.strings[key := value]);
      }
    }
  }
}
