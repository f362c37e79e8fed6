/**
 * The generic part of the CAN controller driver: `can_generic_init`, which
 * marks a controller as initialised exactly once.
 *
 * `struct can_generic` is modelled by the class Controller with its one
 * visible field, `init`. `hal_isInit(can)` is taken to read that field.
 */
module CanGeneric {

  /** The driver's int32_t status codes. */
  newtype int32 = x: int | -0x8000_0000 <= x < 0x8000_0000

  /** The nonzero status codes, the driver's errors. */
  type ErrorCode = x: int32 | x != 0 witness -1

  /**
   * CAN_ALREDY_INITED (so spelled in the driver, can/can_generic.c:13): the error
   * returned for a controller that is initialised already. Its value is not
   * part of this model; all that is known of it is that it is not 0.
   */
  const CanAlreadyInited: ErrorCode

  /** The outcome of one `can_generic_init` call: the new `init` flag and the returned status. */
  datatype InitOutcome = InitOutcome(init: bool, status: int32)

  /**
   * The transition `can_generic_init` makes from a controller whose flag is
   * wasInit. It succeeds (status 0) exactly when the controller was not yet
   * initialised, and the controller is initialised afterwards either way.
   */
  function InitTransition(wasInit: bool): (r: InitOutcome)
    ensures r.init
    ensures r.status == 0 <==> !wasInit
    ensures r.status != 0 ==> r.status == CanAlreadyInited
  {
    if wasInit then InitOutcome(true, CanAlreadyInited) else InitOutcome(true, 0)
  }

  /** By successive calls a controller is initialised at most once: a second call fails with CAN_ALREDY_INITED. */
  lemma InitAtMostOnce(wasInit: bool)
    ensures InitTransition(InitTransition(wasInit).init).status == CanAlreadyInited
  {
  }

  /** From a fresh controller, two calls return 0 and then CAN_ALREDY_INITED. */
  lemma InitTwice()
    ensures InitTransition(false).status == 0
    ensures InitTransition(InitTransition(false).init).status == CanAlreadyInited
  {
  }

  /** `struct can_generic`, reduced to the field `can_generic_init` reads and writes. */
  class Controller {
    var init: bool

    /** `hal_isInit(can)`, taken to report the `init` flag. */
    predicate HalIsInit()
      reads this
    {
      init
    }

    /** `can_generic_init(can)`. */
    method GenericInit() returns (status: int32)
      modifies this
      ensures InitOutcome(init, status) == InitTransition(old(init))
      ensures init
      ensures old(init) ==> status == CanAlreadyInited && unchanged(this)
      ensures !old(init) ==> status == 0 && init
    {
      if HalIsInit() {
        return CanAlreadyInited;
      }
      init := true;
      return 0;
    }
  }
}
