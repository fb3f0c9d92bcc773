/** Entity generations and journal item coordinates. */
module Ids {

  datatype EntityRef = EntityRef(id: string, typeId: string, generation: nat)

  datatype ItemRef = ItemRef(recordIndex: nat, itemIndex: nat)
}
