/** Value types shared by the consumer and the cluster metadata (structs.py). */
module Structs {
  datatype TopicPartition = TopicPartition(topic: string, partition: int)
}
